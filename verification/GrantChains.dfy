/**
 Chains of grants (dots/master.go:155-201): the depth-first search for archival chains over the grants that
 the registry finds from each key, and exactly which chains it returns.
 */
module GrantChains {
  import opened Bytes

  /**
   A grant (DOT) as the search sees it: who receives it, whether the registry holds it valid, whether it
   is on the archive namespace, whether its URI covers the requested one.
   */
  datatype Grant = Grant(id: nat, receiver: Str, valid: bool, onArchive: bool, matches: bool)

  // The grants that the registry finds from each key; a key it does not have is a failed lookup.
  type Graph = map<Str, seq<Grant>>

  predicate Accepted(d: Grant) {
    d.valid && d.onArchive && d.matches
  }

  // The search goes on from the receiver of this grant.
  predicate GoesOn(d: Grant, find: Str) {
    Accepted(d) && d.receiver != find
  }

  // The key that hands out grant i of a chain.
  function Granter(from: Str, chain: seq<Grant>, i: nat): Str
    requires i <= |chain|
  {
    if i == 0 then from else chain[i - 1].receiver
  }

  // The search follows grant i of the path, from the receiver of the one before.
  predicate Follows(g: Graph, find: Str, from: Str, path: seq<Grant>, i: nat)
    requires i < |path|
  {
    GoesOn(path[i], find) && Granter(from, path, i) in g && path[i] in g[Granter(from, path, i)]
  }

  predicate IsPath(g: Graph, find: Str, from: Str, path: seq<Grant>) {
    forall i :: 0 <= i < |path| ==> Follows(g, find, from, path, i)
  }

  // The search comes to this key.
  ghost predicate Reached(g: Graph, find: Str, from: Str, k: Str) {
    exists path :: IsPath(g, find, from, path) && Granter(from, path, |path|) == k
  }

  // The search cannot go round: from the keys it comes to, the grants it follows lead to lower ranks.
  ghost predicate Ranked(g: Graph, find: Str, from: Str, rank: Str -> nat) {
    forall k, d :: Reached(g, find, from, k) && k in g && d in g[k] && GoesOn(d, find) ==> rank(d.receiver) < rank(k)
  }

  lemma ReachedStart(g: Graph, find: Str, from: Str)
    ensures Reached(g, find, from, from)
  {
    var none: seq<Grant> := [];
    assert IsPath(g, find, from, none) && Granter(from, none, |none|) == from;
  }

  lemma PathStep(g: Graph, find: Str, from: Str, d: Grant, rest: seq<Grant>)
    ensures IsPath(g, find, from, [d] + rest) <==>
            from in g && d in g[from] && GoesOn(d, find) && IsPath(g, find, d.receiver, rest)
    ensures Granter(from, [d] + rest, |rest| + 1) == Granter(d.receiver, rest, |rest|)
  {
    hide Follows;
    var path := [d] + rest;
    FirstFollows(g, find, from, d, rest);
    forall i | 0 <= i < |rest|
      ensures Follows(g, find, from, path, i + 1) <==> Follows(g, find, d.receiver, rest, i)
    {
      FollowsShift(g, find, from, d, rest, i);
    }
    assert forall i :: 0 < i < |path| ==>
      (Follows(g, find, from, path, i) <==> Follows(g, find, d.receiver, rest, i - 1));
  }

  lemma FirstFollows(g: Graph, find: Str, from: Str, d: Grant, rest: seq<Grant>)
    ensures Follows(g, find, from, [d] + rest, 0) <==> from in g && d in g[from] && GoesOn(d, find)
  {
  }

  lemma FollowsShift(g: Graph, find: Str, from: Str, d: Grant, rest: seq<Grant>, i: nat)
    requires i < |rest|
    ensures Follows(g, find, from, [d] + rest, i + 1) <==> Follows(g, find, d.receiver, rest, i)
  {
    hide GoesOn;
    assert ([d] + rest)[i + 1] == rest[i];
  }

  lemma ReachedNext(g: Graph, find: Str, from: Str, d: Grant, k: Str)
    requires from in g && d in g[from] && GoesOn(d, find) && Reached(g, find, d.receiver, k)
    ensures Reached(g, find, from, k)
  {
    hide GoesOn, IsPath, Granter;
    var rest: seq<Grant> :| IsPath(g, find, d.receiver, rest) && Granter(d.receiver, rest, |rest|) == k;
    PathStep(g, find, from, d, rest);
    var path := [d] + rest;
    assert IsPath(g, find, from, path) && Granter(from, path, |path|) == k;
  }

  // A key that the search comes to is the first one, or one that it comes to after a grant of the first.
  lemma ReachedSplit(g: Graph, find: Str, from: Str, k: Str)
    requires Reached(g, find, from, k) && k != from
    ensures from in g && exists d :: d in g[from] && GoesOn(d, find) && Reached(g, find, d.receiver, k)
  {
    hide GoesOn, IsPath;
    var path: seq<Grant> :| IsPath(g, find, from, path) && Granter(from, path, |path|) == k;
    var d, rest := path[0], path[1..];
    assert path == [d] + rest;
    PathStep(g, find, from, d, rest);
    assert Reached(g, find, d.receiver, k);
  }

  lemma RankedNext(g: Graph, find: Str, from: Str, d: Grant, rank: Str -> nat)
    requires Ranked(g, find, from, rank) && from in g && d in g[from] && GoesOn(d, find)
    ensures rank(d.receiver) < rank(from) && Ranked(g, find, d.receiver, rank)
  {
    hide Reached, GoesOn;
    ReachedStart(g, find, from);
    forall k | Reached(g, find, d.receiver, k)
      ensures Reached(g, find, from, k)
    {
      ReachedNext(g, find, from, d, k);
    }
  }

  // The chains found so far, and whether every lookup succeeded.
  datatype Found = Found(chains: seq<seq<Grant>>, ok: bool)

  function Prefixed(d: Grant, chains: seq<seq<Grant>>): (r: seq<seq<Grant>>)
    ensures |r| == |chains| && forall i :: 0 <= i < |r| ==> r[i] == [d] + chains[i]
  {
    if chains == [] then [] else Prefixed(d, chains[..|chains| - 1]) + [[d] + chains[|chains| - 1]]
  }

  // What the search returns from a key, from its grant number i on.
  ghost function Search(g: Graph, find: Str, from: Str, i: nat, rank: Str -> nat): Found
    requires Ranked(g, find, from, rank)
    decreases rank(from), if from in g then |g[from]| - i else 0
  {
    if from !in g then Found([], false)
    else if i >= |g[from]| then Found([], true)
    else
      var d := g[from][i];
      if !Accepted(d) then Search(g, find, from, i + 1, rank)
      else if d.receiver == find then
        var rest := Search(g, find, from, i + 1, rank);
        Found([[d]] + rest.chains, rest.ok)
      else
        RankedNext(g, find, from, d, rank);
        var sub := Search(g, find, d.receiver, 0, rank);
        if !sub.ok then Found([], false) else
        var rest := Search(g, find, from, i + 1, rank);
        Found(Prefixed(d, sub.chains) + rest.chains, rest.ok)
  }

  // Chains in front of what a search returns.
  function Ahead(chains: seq<seq<Grant>>, found: Found): Found {
    Found(chains + found.chains, found.ok)
  }

  lemma AheadAhead(a: seq<seq<Grant>>, b: seq<seq<Grant>>, f: Found)
    ensures Ahead(a, Ahead(b, f)) == Ahead(a + b, f)
  {
    assert a + (b + f.chains) == (a + b) + f.chains;
  }

  // What grant number i adds to the search from the next one on.
  lemma SearchStep(g: Graph, find: Str, from: Str, i: nat, rank: Str -> nat)
    requires Ranked(g, find, from, rank) && from in g && i < |g[from]|
    ensures var d, here, rest := g[from][i], Search(g, find, from, i, rank), Search(g, find, from, i + 1, rank);
            if !Accepted(d) then here == rest
            else if d.receiver == find then here == Ahead([[d]], rest)
            else
              rank(d.receiver) < rank(from) && Ranked(g, find, d.receiver, rank) &&
              var sub := Search(g, find, d.receiver, 0, rank);
              here == if sub.ok then Ahead(Prefixed(d, sub.chains), rest) else Found([], false)
  {
    hide Prefixed, Ranked;
    var d := g[from][i];
    if GoesOn(d, find) {
      RankedNext(g, find, from, d, rank);
    }
  }

  // The grant goes in front of each chain that the recursive search has found.
  method AppendAll(dot: Grant, recursive: seq<seq<Grant>>, chains0: seq<seq<Grant>>) returns (chains: seq<seq<Grant>>)
    ensures chains == chains0 + Prefixed(dot, recursive)
  {
    chains := chains0;
    var j := 0;
    while j < |recursive|
      invariant 0 <= j <= |recursive| && chains == chains0 + Prefixed(dot, recursive[..j])
    {
      assert recursive[..j + 1][..j] == recursive[..j];
      chains := chains + [[dot] + recursive[j]];
      j := j + 1;
    }
    assert recursive[..j] == recursive;
  }

  // findDOTChains; chains found before a lookup fails are returned with the error.
  method FindDOTChains(g: Graph, find: Str, from: Str, ghost rank: Str -> nat)
    returns (chains: seq<seq<Grant>>, ok: bool)
    requires Ranked(g, find, from, rank)
    ensures Found(chains, ok) == Search(g, find, from, 0, rank)
    decreases rank(from)
  {
    hide Ranked, Prefixed, Ahead;
    chains := [];
    if from !in g {
      return chains, false;
    }
    var dots := g[from];
    var i := 0;
    AheadNothing(Search(g, find, from, 0, rank));
    while i < |dots|
      invariant 0 <= i <= |dots|
      invariant Search(g, find, from, 0, rank) == Ahead(chains, Search(g, find, from, i, rank))
    {
      var dot := dots[i];
      ghost var before, rest := chains, Search(g, find, from, i + 1, rank);
      SearchStep(g, find, from, i, rank);
      i := i + 1;
      if !dot.valid {
        continue;
      }
      if !dot.onArchive {
        continue;
      }
      if dot.matches {
        if dot.receiver == find {
          chains := chains + [[dot]];
          AheadAhead(before, [[dot]], rest);
          continue;
        }
        var recursive, fine := FindDOTChains(g, find, dot.receiver, rank);
        if !fine {
          AheadEnd(chains, false);
          return chains, false;
        }
        chains := AppendAll(dot, recursive, chains);
        AheadAhead(before, Prefixed(dot, recursive), rest);
      }
    }
    AheadEnd(chains, true);
    ok := true;
  }

  lemma AheadNothing(f: Found)
    ensures Ahead([], f) == f
  {
  }

  lemma AheadEnd(chains: seq<seq<Grant>>, ok: bool)
    ensures Ahead(chains, Found([], ok)) == Found(chains, ok)
  {
  }

  // ---- the chains there are ----

  // Grant i is valid, on the archive namespace and covers the requested URI; it comes from the key before it,
  // and reaches the wanted key only as the last one.
  predicate Link(g: Graph, find: Str, from: Str, chain: seq<Grant>, i: nat)
    requires i < |chain|
  {
    && chain[i].valid && chain[i].onArchive && chain[i].matches
    && Granter(from, chain, i) in g && chain[i] in g[Granter(from, chain, i)]
    && (chain[i].receiver == find <==> i == |chain| - 1)
  }

  /** A chain: accepted grants, each from the receiver of the one before, reaching the key with the last. */
  predicate IsChain(g: Graph, find: Str, from: Str, chain: seq<Grant>) {
    chain != [] && forall i :: 0 <= i < |chain| ==> Link(g, find, from, chain, i)
  }

  lemma LinkShift(g: Graph, find: Str, from: Str, d: Grant, rest: seq<Grant>, i: nat)
    requires i < |rest|
    ensures Link(g, find, from, [d] + rest, i + 1) <==> Link(g, find, d.receiver, rest, i)
  {
    assert ([d] + rest)[i + 1] == rest[i];
  }

  lemma ChainStep(g: Graph, find: Str, from: Str, d: Grant, rest: seq<Grant>)
    ensures IsChain(g, find, from, [d] + rest) <==>
            from in g && d in g[from] && Accepted(d) &&
            (if rest == [] then d.receiver == find else d.receiver != find && IsChain(g, find, d.receiver, rest))
  {
    hide Link;
    var c := [d] + rest;
    FirstLink(g, find, from, c);
    forall i | 0 <= i < |rest|
      ensures Link(g, find, from, c, i + 1) <==> Link(g, find, d.receiver, rest, i)
    {
      LinkShift(g, find, from, d, rest, i);
    }
    assert forall i :: 0 < i < |c| ==> (Link(g, find, from, c, i) <==> Link(g, find, d.receiver, rest, i - 1));
    assert forall i :: 0 <= i < |rest| ==> (Link(g, find, from, c, i + 1) <==> Link(g, find, d.receiver, rest, i));
  }

  lemma FirstLink(g: Graph, find: Str, from: Str, chain: seq<Grant>)
    requires chain != []
    ensures Link(g, find, from, chain, 0) <==>
            Accepted(chain[0]) && from in g && chain[0] in g[from] && (chain[0].receiver == find <==> |chain| == 1)
  {
  }

  // A chain from the key that begins with one of its grants from number i on.
  ghost predicate ChainFrom(g: Graph, find: Str, from: Str, i: nat, chain: seq<Grant>) {
    && IsChain(g, find, from, chain) && from in g && chain != []
    && exists j :: i <= j < |g[from]| && g[from][j] == chain[0]
  }

  lemma PrefixedHas(d: Grant, chains: seq<seq<Grant>>, chain: seq<Grant>)
    ensures chain in Prefixed(d, chains) <==> chain != [] && chain[0] == d && chain[1..] in chains
  {
    if chain in Prefixed(d, chains) {
      var i :| 0 <= i < |chains| && Prefixed(d, chains)[i] == chain;
      assert chain[1..] == chains[i];
    }
    if chain != [] && chain[0] == d && chain[1..] in chains {
      var i :| 0 <= i < |chains| && chains[i] == chain[1..];
      assert Prefixed(d, chains)[i] == chain;
    }
  }

  lemma FromNext(g: Graph, find: Str, from: Str, i: nat, chain: seq<Grant>)
    requires from in g && i < |g[from]|
    ensures ChainFrom(g, find, from, i, chain) <==>
            ChainFrom(g, find, from, i + 1, chain) ||
            (chain != [] && chain[0] == g[from][i] && IsChain(g, find, from, chain))
  {
    hide IsChain;
    if chain != [] && chain[0] == g[from][i] {
      assert i <= i < |g[from]| && g[from][i] == chain[0];
    }
  }

  lemma {:induction false} SearchFinds(g: Graph, find: Str, from: Str, i: nat, rank: Str -> nat, chain: seq<Grant>)
    requires Ranked(g, find, from, rank)
    ensures var r := Search(g, find, from, i, rank);
            && (chain in r.chains ==> ChainFrom(g, find, from, i, chain))
            && (r.ok && ChainFrom(g, find, from, i, chain) ==> chain in r.chains)
    decreases rank(from), if from in g then |g[from]| - i else 0
  {
    hide IsChain, Accepted, Ranked, ChainFrom, Granter, Prefixed;
    if from in g && i < |g[from]| {
      var d := g[from][i];
      FromNext(g, find, from, i, chain);
      SearchStep(g, find, from, i, rank);
      SearchFinds(g, find, from, i + 1, rank, chain);
      if chain != [] {
        assert chain == [chain[0]] + chain[1..];
        ChainStep(g, find, from, chain[0], chain[1..]);
      } else {
        NoChain(g, find, from);
      }
      var rest := Search(g, find, from, i + 1, rank).chains;
      if Accepted(d) && d.receiver != find {
        var tail := if chain == [] then [] else chain[1..];
        SearchFinds(g, find, d.receiver, 0, rank, tail);
        PrefixedHas(d, Search(g, find, d.receiver, 0, rank).chains, chain);
        FromStart(g, find, d.receiver, tail);
        NoChain(g, find, d.receiver);
      } else if Accepted(d) {
        assert chain in [[d]] + rest <==> chain == [d] || chain in rest;
        assert chain == [d] <==> chain != [] && chain[0] == d && chain[1..] == [];
      }
    } else {
      FromNowhere(g, find, from, i, chain);
    }
  }

  lemma NoChain(g: Graph, find: Str, from: Str)
    ensures !IsChain(g, find, from, [])
  {
  }

  lemma FromNowhere(g: Graph, find: Str, from: Str, i: nat, chain: seq<Grant>)
    requires from in g ==> i >= |g[from]|
    ensures !ChainFrom(g, find, from, i, chain)
  {
    hide IsChain;
  }

  lemma NotEmpty(g: Graph, find: Str, from: Str, chain: seq<Grant>)
    ensures IsChain(g, find, from, chain) ==> chain != [] && from in g && chain[0] in g[from]
  {
    assert chain != [] ==> (Link(g, find, from, chain, 0) ==> chain[0] in g[from]);
  }

  lemma FromStart(g: Graph, find: Str, from: Str, chain: seq<Grant>)
    ensures ChainFrom(g, find, from, 0, chain) <==> IsChain(g, find, from, chain)
  {
    if IsChain(g, find, from, chain) {
      NotEmpty(g, find, from, chain);
      var j :| 0 <= j < |g[from]| && g[from][j] == chain[0];
    }
  }

  // No lookup of a key that the search comes to fails.
  ghost predicate Closed(g: Graph, find: Str, from: Str) {
    forall k :: Reached(g, find, from, k) ==> k in g
  }

  lemma ClosedStep(g: Graph, find: Str, from: Str)
    ensures Closed(g, find, from) <==>
            from in g && forall d :: d in g[from] && GoesOn(d, find) ==> Closed(g, find, d.receiver)
  {
    hide Reached, GoesOn;
    ReachedStart(g, find, from);
    if Closed(g, find, from) {
      forall d, k | d in g[from] && GoesOn(d, find) && Reached(g, find, d.receiver, k)
        ensures k in g
      {
        ReachedNext(g, find, from, d, k);
      }
    } else if from in g {
      var k :| Reached(g, find, from, k) && k !in g;
      ReachedSplit(g, find, from, k);
    }
  }

  lemma {:induction false} SucceedsFrom(g: Graph, find: Str, from: Str, i: nat, rank: Str -> nat)
    requires Ranked(g, find, from, rank) && from in g
    ensures Search(g, find, from, i, rank).ok <==>
            forall j :: i <= j < |g[from]| && GoesOn(g[from][j], find) ==> Closed(g, find, g[from][j].receiver)
    decreases rank(from), 0, |g[from]| - i
  {
    hide Ranked, Closed, Prefixed;
    if i < |g[from]| {
      var d := g[from][i];
      SearchStep(g, find, from, i, rank);
      SucceedsFrom(g, find, from, i + 1, rank);
      if GoesOn(d, find) {
        SearchSucceeds(g, find, d.receiver, rank);
      }
    }
  }

  /** The search succeeds exactly when the registry has every key that it comes to. */
  lemma {:induction false} SearchSucceeds(g: Graph, find: Str, from: Str, rank: Str -> nat)
    requires Ranked(g, find, from, rank)
    ensures Search(g, find, from, 0, rank).ok <==> Closed(g, find, from)
    decreases rank(from), 1
  {
    hide Ranked, Closed, GoesOn;
    ClosedStep(g, find, from);
    if from in g {
      SucceedsFrom(g, find, from, 0, rank);
      assert forall d :: d in g[from] ==> exists j :: 0 <= j < |g[from]| && g[from][j] == d;
    }
  }

  /**
   The search is sound, and complete when no lookup fails: it returns exactly the chains of accepted
   grants from the first key that reach the wanted key, and not before their end.
   */
  lemma SearchExact(g: Graph, find: Str, from: Str, rank: Str -> nat)
    requires Ranked(g, find, from, rank)
    ensures forall c :: c in Search(g, find, from, 0, rank).chains ==> IsChain(g, find, from, c)
    ensures Closed(g, find, from) ==>
              forall c :: c in Search(g, find, from, 0, rank).chains <==> IsChain(g, find, from, c)
  {
    hide IsChain, Ranked, Closed;
    SearchSucceeds(g, find, from, rank);
    forall c
      ensures c in Search(g, find, from, 0, rank).chains ==> IsChain(g, find, from, c)
      ensures Closed(g, find, from) && IsChain(g, find, from, c) ==> c in Search(g, find, from, 0, rank).chains
    {
      SearchFinds(g, find, from, 0, rank, c);
      FromStart(g, find, from, c);
    }
  }

  predicate NoRepeats<T(==)>(s: seq<T>) {
    forall i, j :: 0 <= i < j < |s| ==> s[i] != s[j]
  }

  lemma PrefixedOnce(d: Grant, chains: seq<seq<Grant>>)
    requires NoRepeats(chains)
    ensures NoRepeats(Prefixed(d, chains))
  {
    var ps := Prefixed(d, chains);
    forall i, j | 0 <= i < j < |ps|
      ensures ps[i] != ps[j]
    {
      assert ps[i][1..] == chains[i] && ps[j][1..] == chains[j];
    }
  }

  lemma JoinedOnce<T>(a: seq<T>, b: seq<T>)
    requires NoRepeats(a) && NoRepeats(b) && forall x :: x in a ==> x !in b
    ensures NoRepeats(a + b)
  {
    forall i, j | 0 <= i < j < |a + b|
      ensures (a + b)[i] != (a + b)[j]
    {
      assert i < |a| <= j ==> a[i] in a && b[j - |a|] in b;
    }
  }

  /** When the registry lists no grant twice, the search returns no chain twice. */
  lemma {:induction false} SearchOnce(g: Graph, find: Str, from: Str, i: nat, rank: Str -> nat)
    requires Ranked(g, find, from, rank) && forall k :: k in g ==> NoRepeats(g[k])
    ensures NoRepeats(Search(g, find, from, i, rank).chains)
    decreases rank(from), if from in g then |g[from]| - i else 0
  {
    hide Ranked, Prefixed, IsChain, GoesOn;
    if from in g && i < |g[from]| {
      var d, rest := g[from][i], Search(g, find, from, i + 1, rank);
      SearchStep(g, find, from, i, rank);
      SearchOnce(g, find, from, i + 1, rank);
      if Accepted(d) {
        var here := [[d]];
        if d.receiver != find {
          SearchOnce(g, find, d.receiver, 0, rank);
          PrefixedOnce(d, Search(g, find, d.receiver, 0, rank).chains);
          here := Prefixed(d, Search(g, find, d.receiver, 0, rank).chains);
        }
        forall c | c in here
          ensures c !in rest.chains
        {
          if d.receiver != find {
            PrefixedHas(d, Search(g, find, d.receiver, 0, rank).chains, c);
          }
          SearchFinds(g, find, from, i + 1, rank, c);
          StartsLater(g, find, from, i, c);
        }
        JoinedOnce(here, rest.chains);
      }
    }
  }

  lemma StartsLater(g: Graph, find: Str, from: Str, i: nat, c: seq<Grant>)
    requires from in g && i < |g[from]| && NoRepeats(g[from]) && c != [] && c[0] == g[from][i]
    ensures !ChainFrom(g, find, from, i + 1, c)
  {
    hide IsChain;
  }
}
