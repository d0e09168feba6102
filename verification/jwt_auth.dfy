/**
 * JwtAuth: which scopes a new token carries and its time claims (the
 * registered claims `iat`, `nbf` and `exp` of section 4.1 of RFC 7519).
 * Token building, signing, parsing and validation belong to the JWT library
 * and are not part of this model. The user's `hasRole` and the value of the
 * reader role (the Role enumeration is not part of this model) come in as
 * parameters.
 */
module JwtAuth {
  import opened Collections

  type Scope = string

  /** The configured issuer, client id and maximum token lifetime in seconds. */
  datatype Auth = Auth(issuer: string, clientId: string, lifetime: nat)

  /** `getLifetime`: the lifetime the service was constructed with. */
  function GetLifetime(auth: Auth): (seconds: nat)
    ensures seconds == auth.lifetime
  {
    auth.lifetime
  }

  /** `x` first occurs in `s` before `y` does. */
  predicate Before(s: seq<Scope>, x: Scope, y: Scope) {
    x in s && y in s && FirstIndex(s, x) < FirstIndex(s, y)
  }

  /** `r` draws from `s` and lists its elements in the order they first occur in `s`. */
  predicate InFirstOccurrenceOrder(r: seq<Scope>, s: seq<Scope>) {
    && (forall i :: 0 <= i < |r| ==> r[i] in s)
    && (forall i, j :: 0 <= i < j < |r| ==> Before(s, r[i], r[j]))
  }

  /** The first index of an element is the same in any prefix that holds it. */
  lemma {:induction false} FirstIndexPrefix(s: seq<Scope>, n: nat, x: Scope)
    requires n <= |s| && x in s[..n]
    ensures FirstIndex(s[..n], x) == FirstIndex(s, x)
  {
    if s[0] != x {
      assert s[..n][1..] == s[1..][..n - 1];
      FirstIndexPrefix(s[1..], n - 1, x);
    }
  }

  /** `array_unique`: keeps the first occurrence of every value, in order. */
  function Unique(s: seq<Scope>): (r: seq<Scope>)
    ensures forall x :: x in r <==> x in s
    ensures NoDuplicates(r)
    ensures InFirstOccurrenceOrder(r, s)
  {
    if s == [] then []
    else
      var prefix := s[..|s| - 1];
      var last := s[|s| - 1];
      var u := Unique(prefix);
      assert s == prefix + [last];
      forall i | 0 <= i < |u| ensures FirstIndex(s, u[i]) == FirstIndex(prefix, u[i]) {
        FirstIndexPrefix(s, |s| - 1, u[i]);
      }
      if last in u then u
      else
        assert FirstIndex(s, last) == |s| - 1;
        u + [last]
  }

  /** `array_filter` with a predicate, keeping order. */
  function Filter(s: seq<Scope>, keep: Scope -> bool): (r: seq<Scope>)
    ensures forall x :: x in r <==> x in s && keep(x)
    ensures |r| <= |s|
    decreases |s|
  {
    if s == [] then []
    else
      var rest := Filter(s[1..], keep);
      assert forall x :: x in s <==> x == s[0] || x in s[1..];
      if keep(s[0]) then [s[0]] + rest else rest
  }

  /** In an ordered list, the head first occurs before every later element. */
  lemma HeadPrecedesTail(r: seq<Scope>, s: seq<Scope>, y: Scope)
    requires InFirstOccurrenceOrder(r, s)
    requires r != [] && y in r[1..]
    ensures Before(s, r[0], y)
  {
    var k :| 0 <= k < |r[1..]| && r[1..][k] == y;
    assert r[k + 1] == y;
  }

  /** Filtering keeps a duplicate-free list duplicate-free. */
  lemma {:induction false} FilterKeepsNoDuplicates(r: seq<Scope>, keep: Scope -> bool)
    requires NoDuplicates(r)
    ensures NoDuplicates(Filter(r, keep))
    decreases |r|
  {
    if r != [] {
      var tail := r[1..];
      assert NoDuplicates(tail) by {
        assert forall i :: 0 <= i < |tail| ==> tail[i] == r[i + 1];
      }
      FilterKeepsNoDuplicates(tail, keep);
      assert r[0] !in tail;
    }
  }

  /** Filtering keeps a list in first-occurrence order. */
  lemma {:induction false} FilterKeepsOrder(r: seq<Scope>, s: seq<Scope>, keep: Scope -> bool)
    requires InFirstOccurrenceOrder(r, s)
    ensures InFirstOccurrenceOrder(Filter(r, keep), s)
    decreases |r|
  {
    if r != [] {
      var tail := r[1..];
      var rest := Filter(tail, keep);
      assert InFirstOccurrenceOrder(tail, s) by {
        assert forall i :: 0 <= i < |tail| ==> tail[i] == r[i + 1];
      }
      FilterKeepsOrder(tail, s, keep);
      if keep(r[0]) {
        var f := [r[0]] + rest;
        assert Filter(r, keep) == f;
        forall i, j | 0 <= i < j < |f| ensures Before(s, f[i], f[j]) {
          assert f[j] == rest[j - 1];
          if i == 0 {
            assert f[j] in tail;
            HeadPrecedesTail(r, s, f[j]);
          } else {
            assert f[i] == rest[i - 1];
            assert Before(s, rest[i - 1], rest[j - 1]);
          }
        }
      }
    }
  }

  /**
   * The scopes `createJwt` awards: the requested scopes plus the reader scope,
   * duplicates dropped, then only those the user holds.
   */
  function AwardedScopes(requested: seq<Scope>, reader: Scope, hasRole: Scope -> bool): (awarded: seq<Scope>)
    ensures forall x :: x in awarded <==> (x in requested || x == reader) && hasRole(x)
    ensures NoDuplicates(awarded)
    ensures InFirstOccurrenceOrder(awarded, requested + [reader])
  {
    var merged := requested + [reader];
    assert forall x :: x in merged <==> x in requested || x == reader;
    var unique := Unique(merged);
    FilterKeepsNoDuplicates(unique, hasRole);
    FilterKeepsOrder(unique, merged, hasRole);
    Filter(unique, hasRole)
  }

  /** A reader is always awarded the reader scope, requested or not. */
  lemma ReaderAlwaysAwarded(requested: seq<Scope>, reader: Scope, hasRole: Scope -> bool)
    requires hasRole(reader)
    ensures reader in AwardedScopes(requested, reader, hasRole)
  {
  }

  /**
   * Requesting a scope again, or requesting the reader scope explicitly,
   * leaves the awarded list exactly as it was.
   */
  lemma {:induction false} AwardedScopesIgnoreRepeats(requested: seq<Scope>, x: Scope, reader: Scope,
                                                      hasRole: Scope -> bool)
    requires x in requested || x == reader
    ensures AwardedScopes(requested + [x], reader, hasRole) == AwardedScopes(requested, reader, hasRole)
  {
    var once := requested + [reader];
    var twice := requested + [x] + [reader];
    assert once[..|once| - 1] == requested;
    assert twice[..|twice| - 1] == requested + [x];
    assert (requested + [x])[..|requested|] == requested;
    if x in requested {
      assert Unique(requested + [x]) == Unique(requested);
    } else {
      assert Unique(requested + [x]) == Unique(once);
    }
    assert Unique(twice) == Unique(once);
  }

  /** The time claims of a token issued at `now` (seconds). */
  datatype TimeClaims = TimeClaims(iat: int, nbf: int, exp: int)

  /** `issuedAt($now)`, `canOnlyBeUsedAfter($now)`, `expiresAt($now + lifetime seconds)`. */
  function IssueTimes(auth: Auth, now: int): (c: TimeClaims)
    ensures c.iat == now && c.nbf == c.iat
    ensures c.exp - c.nbf == GetLifetime(auth)
  {
    TimeClaims(now, now, now + auth.lifetime)
  }
}
