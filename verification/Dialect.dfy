/** Which dialect the server of lib/libsmb2.c takes from a negotiate request. */
module Dialect {
  import opened Wrappers

  const VERSION_ANY := 0
  const VERSION_ANY2 := 2
  const VERSION_ANY3 := 3

  /** The dialects a version setting allows; the client lists them in its request in this order. */
  function Allowed(version: nat): seq<nat> {
    if version == VERSION_ANY then [0x0202, 0x0210, 0x0300, 0x0302, 0x0311]
    else if version == VERSION_ANY2 then [0x0202, 0x0210]
    else if version == VERSION_ANY3 then [0x0300, 0x0302, 0x0311]
    else [version]
  }

  lemma AllowedDialects(version: nat, d: nat)
    ensures version == 0 ==> (d in Allowed(version) <==> d in {0x0202, 0x0210, 0x0300, 0x0302, 0x0311})
    ensures version == 2 ==> (d in Allowed(version) <==> d in {0x0202, 0x0210})
    ensures version == 3 ==> (d in Allowed(version) <==> d in {0x0300, 0x0302, 0x0311})
    ensures version !in {0, 2, 3} ==> (d in Allowed(version) <==> d == version)
  {
  }

  /** The last dialect of the request that is allowed. */
  function LastCommon(allowed: seq<nat>, request: seq<nat>): Option<nat> {
    if request == [] then None
    else if request[|request| - 1] in allowed then Some(request[|request| - 1])
    else LastCommon(allowed, request[..|request| - 1])
  }

  /** Allowed, requested, and no lower than any other that is both. */
  ghost predicate HighestCommon(allowed: seq<nat>, request: seq<nat>, dialect: nat) {
    && dialect in allowed && dialect in request
    && forall d :: d in allowed && d in request ==> d <= dialect
  }

  /** The selection loops of smb2_negotiate_request_cb. */
  method Choose(version: nat, request: seq<nat>) returns (chosen: Option<nat>)
    ensures chosen == LastCommon(Allowed(version), request)
  {
    var dialects := Allowed(version);
    var dialect := 0;
    var index := |request| - 1;
    assert request[..|request|] == request;
    while index >= 0
      invariant -1 <= index < |request|
      invariant LastCommon(dialects, request[..index + 1]) == LastCommon(dialects, request)
      invariant dialect == 0
    {
      var d := |dialects| - 1;
      while d >= 0
        invariant -1 <= d < |dialects|
        invariant forall k :: d < k < |dialects| ==> dialects[k] != request[index]
        invariant dialect == 0
      {
        if dialects[d] == request[index] {
          dialect := dialects[d];
          break;
        }
        d := d - 1;
      }
      assert request[..index + 1][..index] == request[..index];
      if dialect != 0 {
        return Some(dialect);
      }
      index := index - 1;
    }
    return None;
  }

  lemma {:induction false} LastCommonIsCommon(allowed: seq<nat>, request: seq<nat>)
    ensures match LastCommon(allowed, request)
      case None => forall d :: d in request ==> d !in allowed
      case Some(d) => d in allowed && d in request
  {
    if request != [] && request[|request| - 1] !in allowed {
      LastCommonIsCommon(allowed, request[..|request| - 1]);
      assert request == request[..|request| - 1] + [request[|request| - 1]];
    }
  }

  /** The position of the last common dialect, as a caller would look for it. */
  ghost predicate IsLastCommon(allowed: seq<nat>, request: seq<nat>, at: nat) {
    at < |request| && request[at] in allowed && forall k :: at < k < |request| ==> request[k] !in allowed
  }

  lemma {:induction false} LastCommonAt(allowed: seq<nat>, request: seq<nat>, at: nat)
    requires IsLastCommon(allowed, request, at)
    ensures LastCommon(allowed, request) == Some(request[at])
  {
    if at < |request| - 1 {
      LastCommonAt(allowed, request[..|request| - 1], at);
    }
  }

  /** For one server: the choice is the highest exactly when no allowed dialect earlier in the request is higher than
      the last one. */
  lemma HighestExactly(allowed: seq<nat>, request: seq<nat>, at: nat)
    requires IsLastCommon(allowed, request, at)
    ensures LastCommon(allowed, request) == Some(request[at])
    ensures HighestCommon(allowed, request, request[at])
      <==> forall k :: 0 <= k < at && request[k] in allowed ==> request[k] <= request[at]
  {
    LastCommonAt(allowed, request, at);
  }

  ghost predicate Ascending(s: seq<nat>) {
    forall i, j :: 0 <= i < j < |s| ==> s[i] < s[j]
  }

  ghost predicate Distinct(s: seq<nat>) {
    forall i, j :: 0 <= i < j < |s| ==> s[i] != s[j]
  }

  /** What the comment in the code asks for. */
  ghost predicate GetsHighest(allowed: seq<nat>, request: seq<nat>) {
    match LastCommon(allowed, request)
    case None => forall d :: d in request ==> d !in allowed
    case Some(d) => HighestCommon(allowed, request, d)
  }

  /** The order that is right for every list of allowed dialects, not only for those of the version settings, is the
      ascending one. */
  lemma AscendingExactly(request: seq<nat>)
    requires Distinct(request)
    ensures Ascending(request) <==> forall allowed :: GetsHighest(allowed, request)
  {
    if Ascending(request) {
      forall allowed ensures GetsHighest(allowed, request) {
        LastCommonIsCommon(allowed, request);
        if LastCommon(allowed, request).Some? {
          LastIsHighest(allowed, request);
        }
      }
    } else {
      var i, j :| 0 <= i < j < |request| && request[i] > request[j];
      var allowed := [request[i], request[j]];
      HighestExactly(allowed, request, j);
      assert !HighestCommon(allowed, request, request[j]);
      assert !GetsHighest(allowed, request);
    }
  }

  /** Whenever an allowed dialect stands before a lower allowed one, one at least as high stands later still. */
  ghost predicate Settles(allowed: seq<nat>, request: seq<nat>) {
    forall i, j :: Falls(allowed, request, i, j) ==> HigherLater(allowed, request, request[i], j)
  }

  ghost predicate Falls(allowed: seq<nat>, request: seq<nat>, i: int, j: int) {
    0 <= i < j < |request| && request[i] in allowed && request[j] in allowed && request[i] > request[j]
  }

  ghost predicate HigherLater(allowed: seq<nat>, request: seq<nat>, dialect: nat, j: nat) {
    exists k :: j < k < |request| && request[k] in allowed && request[k] >= dialect
  }

  lemma HighestWhenSettled(allowed: seq<nat>, request: seq<nat>)
    ensures GetsHighest(allowed, request) <==> Settles(allowed, request)
  {
    LastCommonIsCommon(allowed, request);
    if LastCommon(allowed, request).Some? {
      var at := LastPosition(allowed, request);
      HighestExactly(allowed, request, at);
      if GetsHighest(allowed, request) {
        forall i, j | Falls(allowed, request, i, j)
          ensures HigherLater(allowed, request, request[i], j)
        {
          assert request[at] >= request[i];
        }
      } else {
        var i :| 0 <= i < at && request[i] in allowed && request[i] > request[at];
        assert Falls(allowed, request, i, at) && !HigherLater(allowed, request, request[i], at);
      }
    }
  }

  lemma {:induction false} LastPosition(allowed: seq<nat>, request: seq<nat>) returns (at: nat)
    requires LastCommon(allowed, request).Some?
    ensures IsLastCommon(allowed, request, at)
  {
    at := |request| - 1;
    if request[at] !in allowed {
      at := LastPosition(allowed, request[..at]);
    }
  }

  /** What the comment in the code asks for holds of the servers of every version setting exactly if the request settles
      on each of the three lists; a server of a single version always gives the highest. */
  lemma EveryServerExactly(request: seq<nat>)
    ensures (forall version :: GetsHighest(Allowed(version), request)) <==>
      && Settles(Allowed(VERSION_ANY), request)
      && Settles(Allowed(VERSION_ANY2), request)
      && Settles(Allowed(VERSION_ANY3), request)
  {
    hide Settles, GetsHighest;
    forall version
      ensures GetsHighest(Allowed(version), request) <==> Settles(Allowed(version), request)
      ensures version !in {VERSION_ANY, VERSION_ANY2, VERSION_ANY3} ==> Settles(Allowed(version), request)
    {
      HighestWhenSettled(Allowed(version), request);
      if version !in {VERSION_ANY, VERSION_ANY2, VERSION_ANY3} {
        OneSettles(version, request);
      }
    }
  }

  lemma OneSettles(version: nat, request: seq<nat>)
    ensures Settles([version], request)
  {
  }

  /** Not only ascending requests do: here 3.0.2 stands before 2.1, but 3.1.1 comes last. */
  lemma UnorderedRequest(version: nat)
    ensures var request := [0x0302, 0x0210, 0x0311];
      !Ascending(request) && GetsHighest(Allowed(version), request)
  {
    var request := [0x0302, 0x0210, 0x0311];
    assert request[0] > request[1];
    HighestWhenSettled(Allowed(version), request);
    forall i, j | Falls(Allowed(version), request, i, j)
      ensures HigherLater(Allowed(version), request, request[i], j)
    {
      assert i == 0 && j == 1;
      assert version == VERSION_ANY;
      assert request[2] in Allowed(version);
    }
  }

  /** A request with the highest dialect first does not get it. */
  lemma DescendingRequest()
    ensures LastCommon(Allowed(VERSION_ANY), [0x0311, 0x0302]) == Some(0x0302)
    ensures !HighestCommon(Allowed(VERSION_ANY), [0x0311, 0x0302], 0x0302)
  {
    assert 0x0311 in [0x0311, 0x0302] && 0x0311 in Allowed(VERSION_ANY);
  }

  /** Between two sides of this library the choice is the highest both allow, and there is none only if they share
      none. */
  lemma OwnClientGetsHighest(client: nat, server: nat)
    ensures GetsHighest(Allowed(server), Allowed(client))
  {
    Ascends(client);
    AscendingExactly(Allowed(client));
  }

  lemma Ascends(version: nat)
    ensures Ascending(Allowed(version))
  {
  }

  lemma {:induction false} LastIsHighest(allowed: seq<nat>, request: seq<nat>)
    requires Ascending(request) && LastCommon(allowed, request).Some?
    ensures HighestCommon(allowed, request, LastCommon(allowed, request).value)
  {
    var n := |request| - 1;
    if request[n] in allowed {
    } else {
      LastIsHighest(allowed, request[..n]);
      assert request == request[..n] + [request[n]];
    }
  }
}
