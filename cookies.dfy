/**
 * The client's cookie lookup `getCookie(name)` over `document.cookie`:
 * a leftmost search for the JavaScript pattern `(^| )name=([^;]+)`,
 * whose second group is the raw cookie value.
 */
module Cookies {
  import opened Wrappers

  /** The longest prefix of `u` without ';' -- the greedy `[^;]*` run. */
  function Token(u: string): (r: string)
    ensures |r| <= |u| && r == u[..|r|]
    ensures ';' !in r
    ensures |r| == |u| || u[|r|] == ';'
    decreases |u|
  {
    if u == [] || u[0] == ';' then [] else [u[0]] + Token(u[1..])
  }

  /** `t` starts with `name=`. */
  predicate NameAt(t: string, name: string) {
    |t| > |name| && t[..|name| + 1] == name + "="
  }

  /** The part `name=([^;]+)` of the pattern, tried at the start of `t`. */
  function ValueAt(t: string, name: string): (r: Option<string>)
    ensures r.Some? ==> r.value != [] && ';' !in r.value
  {
    if NameAt(t, name) && Token(t[|name| + 1..]) != [] then Some(Token(t[|name| + 1..])) else None
  }

  /**
   * The regular-expression search on the suffix `t` of the cookie string.
   * `atStart` says whether `t` begins the whole string, where the `^`
   * alternative applies; at every position `^` is tried before ` `.
   */
  function Find(t: string, name: string, atStart: bool): (r: Option<string>)
    ensures r.Some? ==> r.value != [] && ';' !in r.value
    decreases |t|
  {
    if atStart && ValueAt(t, name).Some? then ValueAt(t, name)
    else if t != [] && t[0] == ' ' && ValueAt(t[1..], name).Some? then ValueAt(t[1..], name)
    else if t == [] then None
    else Find(t[1..], name, false)
  }

  /** `getCookie(name)`: the raw value of the first match, or `undefined`. */
  function GetCookie(cookie: string, name: string): (r: Option<string>)
    ensures r.Some? ==> r.value != [] && ';' !in r.value
  {
    Find(cookie, name, true)
  }

  /** A match may begin at position `q` of the suffix `t`: at its start (when that is the string's start) or after a space. */
  ghost predicate Eligible(t: string, atStart: bool, q: int) {
    (q == 0 && atStart) || (0 < q <= |t| && t[q - 1] == ' ')
  }

  /** Some occurrence of `name=` and a non-empty value begins at `q`, at the string's start or right after a space. */
  ghost predicate MatchesAt(s: string, name: string, q: int) {
    0 <= q <= |s| && (q == 0 || s[q - 1] == ' ') && ValueAt(s[q..], name).Some?
  }

  lemma {:induction false} FindLeftmost(t: string, name: string, atStart: bool)
    ensures Find(t, name, atStart).Some? ==>
      exists q :: 0 <= q <= |t| && Eligible(t, atStart, q) && ValueAt(t[q..], name) == Find(t, name, atStart)
        && forall q' :: 0 <= q' < q && Eligible(t, atStart, q') ==> ValueAt(t[q'..], name).None?
    ensures Find(t, name, atStart).None? ==>
      forall q :: 0 <= q <= |t| && Eligible(t, atStart, q) ==> ValueAt(t[q..], name).None?
    decreases |t|
  {
    if atStart && ValueAt(t, name).Some? {
      assert t[0..] == t;
      assert Eligible(t, atStart, 0);
    } else if t != [] && t[0] == ' ' && ValueAt(t[1..], name).Some? {
      assert t[0..] == t;
      assert Eligible(t, atStart, 1);
    } else if t == [] {
      assert t[0..] == t;
    } else {
      var u := t[1..];
      FindLeftmost(u, name, false);
      assert t[0..] == t;
      forall q | 2 <= q <= |t| ensures Eligible(t, atStart, q) == Eligible(u, false, q - 1) && t[q..] == u[q - 1..] {
        assert t[q - 1] == u[q - 2];
      }
      if Find(u, name, false).Some? {
        var q :| 0 <= q <= |u| && Eligible(u, false, q) && ValueAt(u[q..], name) == Find(u, name, false)
          && forall q' :: 0 <= q' < q && Eligible(u, false, q') ==> ValueAt(u[q'..], name).None?;
        assert t[q + 1..] == u[q..];
        assert Eligible(t, atStart, q + 1);
        forall q' | 0 <= q' < q + 1 && Eligible(t, atStart, q') ensures ValueAt(t[q'..], name).None? {
          if q' >= 2 {
            assert Eligible(u, false, q' - 1) && t[q'..] == u[q' - 1..];
          }
        }
      } else {
        forall q | 0 <= q <= |t| && Eligible(t, atStart, q) ensures ValueAt(t[q..], name).None? {
          if q >= 2 {
            assert Eligible(u, false, q - 1) && t[q..] == u[q - 1..];
          }
        }
      }
    }
  }

  /**
   * `getCookie` returns the value at the leftmost position where `name=`
   * with a non-empty value starts the string or follows a space; it returns
   * `undefined` exactly when there is no such position. An occurrence
   * preceded by any other character (`xcsrftoken=` for `csrftoken`) is
   * never a match.
   */
  lemma GetCookieLeftmost(s: string, name: string)
    ensures GetCookie(s, name).Some? ==>
      exists q :: MatchesAt(s, name, q) && GetCookie(s, name) == ValueAt(s[q..], name)
        && forall q' :: 0 <= q' < q ==> !MatchesAt(s, name, q')
    ensures GetCookie(s, name).None? <==> forall q :: !MatchesAt(s, name, q)
  {
    FindLeftmost(s, name, true);
    assert forall q :: 0 <= q <= |s| ==> (Eligible(s, true, q) <==> (q == 0 || s[q - 1] == ' '));
    if GetCookie(s, name).Some? {
      var q :| 0 <= q <= |s| && Eligible(s, true, q) && ValueAt(s[q..], name) == Find(s, name, true)
        && forall q' :: 0 <= q' < q && Eligible(s, true, q') ==> ValueAt(s[q'..], name).None?;
      assert MatchesAt(s, name, q);
    }
  }

  /** One `key=value` pair of a cookie string. */
  datatype Pair = Pair(key: string, value: string)

  /**
   * A pair the lookup can recover: key without ' ' or '=', value non-empty
   * without ' ', ';' or '%'. `decodeURIComponent` leaves a value without
   * '%' as it is, so for these pairs the raw match is also what `getCookie`
   * returns after decoding.
   */
  ghost predicate Recoverable(p: Pair) {
    ' ' !in p.key && '=' !in p.key && p.value != [] && ' ' !in p.value && ';' !in p.value && '%' !in p.value
  }

  function PairText(p: Pair): string {
    p.key + "=" + p.value
  }

  /** The browser's rendering of `document.cookie`: pairs joined by "; ". */
  function Serialize(ps: seq<Pair>): string
    decreases |ps|
  {
    if ps == [] then ""
    else if |ps| == 1 then PairText(ps[0])
    else PairText(ps[0]) + "; " + Serialize(ps[1..])
  }

  /** The value of the first pair with key `k`. */
  function FirstValue(ps: seq<Pair>, k: string): Option<string>
    decreases |ps|
  {
    if ps == [] then None else if ps[0].key == k then Some(ps[0].value) else FirstValue(ps[1..], k)
  }

  lemma {:induction false} TokenOf(v: string, z: string)
    requires ';' !in v
    requires z == [] || z[0] == ';'
    ensures Token(v + z) == v
    decreases |v|
  {
    if v != [] {
      assert (v + z)[1..] == v[1..] + z;
      TokenOf(v[1..], z);
    } else {
      assert v + z == z;
    }
  }

  /** A name without '=' other than `key` does not start `key=...` when `key` has no '='. */
  lemma OtherNameNotAt(key: string, rest: string, k: string)
    requires '=' !in key && '=' !in k
    requires key != k
    ensures !NameAt(key + "=" + rest, k)
  {
    var t := key + "=" + rest;
    var w := k + "=";
    assert t[|key|] == '=';
    var i: nat;
    if |k| < |key| {
      i := |k|;
      assert t[i] == key[i] != w[i];
    } else if |k| > |key| {
      i := |key|;
      assert w[i] == k[i] != t[i];
    } else {
      i :| 0 <= i < |k| && k[i] != key[i];
      assert t[i] == key[i] != w[i];
    }
    if |t| > |k| {
      assert t[..|k| + 1][i] != w[i];
    }
  }

  lemma ValueAtPair(key: string, v: string, z: string, k: string)
    requires '=' !in key && '=' !in k
    requires v != [] && ';' !in v
    requires z == [] || z[0] == ';'
    ensures ValueAt(key + "=" + v + z, k) == if key == k then Some(v) else None
  {
    var t := key + "=" + v + z;
    if key == k {
      assert t[..|k| + 1] == k + "=";
      assert t[|k| + 1..] == v + z;
      TokenOf(v, z);
    } else {
      assert t == key + "=" + (v + z);
      OtherNameNotAt(key, v + z, k);
    }
  }

  lemma {:induction false} SkipNoSpace(x: string, y: string, k: string)
    requires ' ' !in x
    ensures Find(x + y, k, false) == Find(y, k, false)
    decreases |x|
  {
    if x != [] {
      assert (x + y)[0] == x[0];
      assert (x + y)[1..] == x[1..] + y;
      SkipNoSpace(x[1..], y, k);
    } else {
      assert x + y == y;
    }
  }

  /** What follows a space is searched as if it began the string. */
  lemma SpaceStart(t: string, k: string)
    ensures Find(" " + t, k, false) == Find(t, k, true)
  {
    assert (" " + t)[1..] == t;
  }

  /** A first pair with another key is skipped: the search resumes after it, not at a string start. */
  lemma SkipPair(p: Pair, z: string, k: string)
    requires Recoverable(p) && '=' !in k && p.key != k
    requires z == [] || z[0] == ';'
    ensures Find(PairText(p) + z, k, true) == Find(z, k, false)
  {
    var text := PairText(p);
    assert text + z == p.key + "=" + p.value + z;
    ValueAtPair(p.key, p.value, z, k);
    assert ' ' !in text;
    assert (text + z)[0] == text[0];
    assert (text + z)[1..] == text[1..] + z;
    SkipNoSpace(text[1..], z, k);
  }

  /** A first pair with the wanted key is the match. */
  lemma TakePair(p: Pair, z: string)
    requires Recoverable(p) && '=' !in p.key
    requires z == [] || z[0] == ';'
    ensures Find(PairText(p) + z, p.key, true) == Some(p.value)
  {
    assert PairText(p) + z == p.key + "=" + p.value + z;
    ValueAtPair(p.key, p.value, z, p.key);
  }

  /**
   * Round trip: in a cookie string "k1=v1; k2=v2; ..." built from
   * recoverable pairs, looking up any name without '=' yields the value of
   * the first pair with that key, and `undefined` when no pair has it.
   */
  lemma {:induction false} GetCookieSerialize(ps: seq<Pair>, k: string)
    requires forall i :: 0 <= i < |ps| ==> Recoverable(ps[i])
    requires '=' !in k
    ensures GetCookie(Serialize(ps), k) == FirstValue(ps, k)
    decreases |ps|
  {
    if ps != [] {
      var p := ps[0];
      var z := if |ps| == 1 then "" else "; " + Serialize(ps[1..]);
      assert Serialize(ps) == PairText(p) + z;
      if p.key == k {
        TakePair(p, z);
      } else {
        SkipPair(p, z, k);
        if |ps| > 1 {
          var rest := Serialize(ps[1..]);
          assert z == ";" + (" " + rest);
          SkipNoSpace(";", " " + rest, k);
          SpaceStart(rest, k);
          GetCookieSerialize(ps[1..], k);
        }
      }
    }
  }

  /**
   * In a string without spaces only `name=` at the very start can match, so
   * "xcsrftoken=abc" holds no `csrftoken`.
   */
  lemma NoSpaceOnlyStart(s: string, name: string)
    requires ' ' !in s
    ensures GetCookie(s, name) == ValueAt(s, name)
  {
    if s != [] && ValueAt(s, name).None? {
      assert s == [s[0]] + s[1..];
      SkipNoSpace(s[1..], [], name);
      assert s[1..] + [] == s[1..];
    }
  }

  lemma PrefixedNameNotMatched()
    ensures GetCookie("xcsrftoken=abc", "csrftoken") == None
  {
    NoSpaceOnlyStart("xcsrftoken=abc", "csrftoken");
    assert "xcsrftoken=abc"[..10] != "csrftoken=" by {
      assert "xcsrftoken=abc"[..10][0] == 'x';
    }
  }
}
