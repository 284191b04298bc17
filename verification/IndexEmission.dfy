/**
 The builder's callkey index: which manifest's bundle each key ends up with, and when
 the build reports a collision.  Files written so far are the map `index`.
 */
module IndexEmission {
  import opened Logs
  import opened Options

  /** One (chain, address, selector) of one resolved bundle; `sha` is the bundle's hash. */
  datatype Claim = Claim(key: string, path: string, sha: string, sourced: bool)

  datatype Owner = Owner(path: string, sha: string)

  datatype Entry = Entry(path: string, sha: string, sourced: bool)

  datatype State = State(
    index: map<string, Entry>, owners: map<string, Owner>,
    written: nat, skippedSourced: nat, repeated: nat, colliding: nat)

  const EMPTY := State(map[], map[], 0, 0, 0, 0)

  function Write(s: State, c: Claim): State {
    s.(index := s.index[c.key := Entry(c.path, c.sha, c.sourced)], written := s.written + 1)
  }

  function Step(s: State, c: Claim): State {
    if c.sourced then
      if c.key in s.index then s.(skippedSourced := s.skippedSourced + 1) else Write(s, c)
    else
      var foreign := c.key in s.owners && s.owners[c.key].path != c.path;
      if foreign && s.owners[c.key].sha == c.sha then s.(repeated := s.repeated + 1)
      else
        Write(s.(owners := s.owners[c.key := Owner(c.path, c.sha)],
                 colliding := s.colliding + if foreign then 1 else 0), c)
  }

  function Run(claims: Log<Claim>): State {
    match claims
    case Start => EMPTY
    case Then(past, c) => Step(Run(past), c)
  }

  /** The last concrete claim of a key. */
  function LastConcrete(claims: Log<Claim>, key: string): Option<Claim> {
    match claims
    case Start => None
    case Then(past, c) => if c.key == key && !c.sourced then Some(c) else LastConcrete(past, key)
  }

  /** The first sourced claim of a key. */
  function FirstSourced(claims: Log<Claim>, key: string): Option<Claim> {
    match claims
    case Start => None
    case Then(past, c) =>
      match FirstSourced(past, key)
      case Some(first) => Some(first)
      case None => if c.key == key && c.sourced then Some(c) else None
  }

  // ---- manifests ----

  datatype Bundle = Bundle(sha: string, keys: seq<string>)

  /** A concrete manifest resolves to one bundle; a sourced one to any number. */
  datatype Manifest = Concrete(path: string, bundle: Bundle) | Sourced(path: string, bundles: seq<Bundle>)

  function AddKeys(claims: Log<Claim>, path: string, sourced: bool, b: Bundle, n: nat): Log<Claim>
    requires n <= |b.keys|
  {
    if n == 0 then claims
    else Then(AddKeys(claims, path, sourced, b, n - 1), Claim(b.keys[n - 1], path, b.sha, sourced))
  }

  function AddBundles(claims: Log<Claim>, path: string, sourced: bool, bundles: seq<Bundle>, n: nat): Log<Claim>
    requires n <= |bundles|
  {
    if n == 0 then claims
    else
      var b := bundles[n - 1];
      AddKeys(AddBundles(claims, path, sourced, bundles, n - 1), path, sourced, b, |b.keys|)
  }

  function Bundles(m: Manifest): seq<Bundle> { if m.Concrete? then [m.bundle] else m.bundles }

  /** Everything the first `n` manifests claim, in the order the builder meets it. */
  function ClaimsOf(manifests: seq<Manifest>, n: nat): Log<Claim>
    requires n <= |manifests|
  {
    if n == 0 then Start
    else
      var m := manifests[n - 1];
      AddBundles(ClaimsOf(manifests, n - 1), m.path, m.Sourced?, Bundles(m), |Bundles(m)|)
  }

  class IndexBuilder {
    var index: map<string, Entry>
    var concreteCallkeyOwners: map<string, Owner>
    var totalCallkeys: nat
    var duplicateSourcedCallkeys: nat
    var duplicateConcreteCallkeys: nat
    var collidingConcreteCallkeys: nat

    function Snapshot(): State
      reads this
    {
      State(index, concreteCallkeyOwners, totalCallkeys, duplicateSourcedCallkeys, duplicateConcreteCallkeys,
            collidingConcreteCallkeys)
    }

    constructor ()
      ensures Snapshot() == EMPTY
    {
      index, concreteCallkeyOwners := map[], map[];
      totalCallkeys, duplicateSourcedCallkeys, duplicateConcreteCallkeys, collidingConcreteCallkeys := 0, 0, 0, 0;
    }

    method EmitKey(c: Claim)
      modifies this
      ensures Snapshot() == Step(old(Snapshot()), c)
    {
      if c.sourced && c.key in index {
        duplicateSourcedCallkeys := duplicateSourcedCallkeys + 1;
        return;
      }
      if !c.sourced {
        if c.key in concreteCallkeyOwners && concreteCallkeyOwners[c.key].path != c.path {
          if concreteCallkeyOwners[c.key].sha == c.sha {
            duplicateConcreteCallkeys := duplicateConcreteCallkeys + 1;
            return;
          }
          collidingConcreteCallkeys := collidingConcreteCallkeys + 1;
        }
        concreteCallkeyOwners := concreteCallkeyOwners[c.key := Owner(c.path, c.sha)];
      }
      index := index[c.key := Entry(c.path, c.sha, c.sourced)];
      totalCallkeys := totalCallkeys + 1;
    }

    method EmitBundle(path: string, sourced: bool, b: Bundle, ghost before: Log<Claim>)
      requires Snapshot() == Run(before)
      modifies this
      ensures Snapshot() == Run(AddKeys(before, path, sourced, b, |b.keys|))
    {
      var i := 0;
      while i < |b.keys|
        invariant 0 <= i <= |b.keys|
        invariant Snapshot() == Run(AddKeys(before, path, sourced, b, i))
      {
        EmitKey(Claim(b.keys[i], path, b.sha, sourced));
        i := i + 1;
      }
    }

    method EmitManifest(m: Manifest, ghost before: Log<Claim>)
      requires Snapshot() == Run(before)
      modifies this
      ensures Snapshot() == Run(AddBundles(before, m.path, m.Sourced?, Bundles(m), |Bundles(m)|))
    {
      var bundles := Bundles(m);
      var i := 0;
      while i < |bundles|
        invariant 0 <= i <= |bundles|
        invariant Snapshot() == Run(AddBundles(before, m.path, m.Sourced?, bundles, i))
      {
        EmitBundle(m.path, m.Sourced?, bundles[i], AddBundles(before, m.path, m.Sourced?, bundles, i));
        i := i + 1;
      }
    }

    /** The emission loop; the result says whether the build succeeds. */
    method Build(manifests: seq<Manifest>, strict: bool) returns (ok: bool)
      requires Snapshot() == EMPTY
      modifies this
      ensures Snapshot() == Run(ClaimsOf(manifests, |manifests|))
      ensures ok <==> !strict || Run(ClaimsOf(manifests, |manifests|)).colliding == 0
    {
      var i := 0;
      while i < |manifests|
        invariant 0 <= i <= |manifests|
        invariant Snapshot() == Run(ClaimsOf(manifests, i))
      {
        EmitManifest(manifests[i], ClaimsOf(manifests, i));
        i := i + 1;
      }
      return !(strict && collidingConcreteCallkeys > 0);
    }
  }

  // ---- who ends up with a key ----

  predicate Shown(s: State, claims: Log<Claim>, key: string) {
    match LastConcrete(claims, key)
    case Some(c) =>
      && key in s.index && s.index[key].sha == c.sha && !s.index[key].sourced
      && key in s.owners && s.owners[key].sha == c.sha
    case None =>
      && key !in s.owners
      && match FirstSourced(claims, key)
         case Some(c) => key in s.index && s.index[key] == Entry(c.path, c.sha, true)
         case None => key !in s.index
  }

  /**
   A key that some concrete manifest claims ends with the bundle hash of its last
   concrete claim; otherwise it keeps the first sourced claim; otherwise it is absent.
   */
  lemma {:induction false} KeyIsShown(claims: Log<Claim>, key: string)
    ensures Shown(Run(claims), claims, key)
  {
    if claims.Then? { KeyIsShown(claims.past, key); }
  }

  /** Every claim is written, skipped or recognised as a repetition. */
  lemma {:induction false} EveryClaimIsCounted(claims: Log<Claim>)
    ensures var s := Run(claims); s.written + s.skippedSourced + s.repeated == claims.Length()
  {
    if claims.Then? { EveryClaimIsCounted(claims.past); }
  }

  // ---- collisions ----

  /** One manifest gives one concrete bundle. */
  ghost predicate OneSha(claims: Log<Claim>) {
    forall a, b :: Occurs(claims, a) && Occurs(claims, b) && !a.sourced && !b.sourced && a.path == b.path ==>
      a.sha == b.sha
  }

  /** Concrete claimants of a key agree on its bundle. */
  ghost predicate Harmonious(claims: Log<Claim>) {
    forall a, b :: Occurs(claims, a) && Occurs(claims, b) && !a.sourced && !b.sourced && a.key == b.key ==>
      a.sha == b.sha
  }

  lemma {:induction false} OwnerOccurs(claims: Log<Claim>, key: string)
    requires key in Run(claims).owners
    ensures Occurs(claims, Claim(key, Run(claims).owners[key].path, Run(claims).owners[key].sha, false))
  {
    var c := claims.last;
    if key in Run(claims.past).owners { OwnerOccurs(claims.past, key); }
  }

  lemma {:induction false} ConcreteClaimHasOwner(claims: Log<Claim>, c: Claim)
    requires Occurs(claims, c) && !c.sourced
    ensures c.key in Run(claims).owners && LastConcrete(claims, c.key).Some?
  {
    if claims.last != c { ConcreteClaimHasOwner(claims.past, c); }
  }

  lemma {:induction false} LastOccurs(claims: Log<Claim>, key: string)
    requires LastConcrete(claims, key).Some?
    ensures var c := LastConcrete(claims, key).value; Occurs(claims, c) && c.key == key && !c.sourced
  {
    var c := claims.last;
    if !(c.key == key && !c.sourced) { LastOccurs(claims.past, key); }
  }

  lemma HarmoniousStep(past: Log<Claim>, c: Claim)
    ensures Harmonious(Then(past, c)) <==>
            Harmonious(past) && (!c.sourced && c.key in Run(past).owners ==> Run(past).owners[c.key].sha == c.sha)
  {
    hide Run;
    var log := Then(past, c);
    assert forall a :: Occurs(log, a) <==> a == c || Occurs(past, a);
    if !c.sourced && c.key in Run(past).owners { OwnerOccurs(past, c.key); }
    if Harmonious(past) && (!c.sourced && c.key in Run(past).owners ==> Run(past).owners[c.key].sha == c.sha) {
      forall a | Occurs(past, a) && !a.sourced && !c.sourced && a.key == c.key
        ensures a.sha == c.sha
      {
        ConcreteClaimHasOwner(past, a);
      }
    }
  }

  /** No collision is counted exactly when the concrete claimants of each key agree. */
  lemma {:induction false} CollisionFreeExactly(claims: Log<Claim>)
    requires OneSha(claims)
    ensures Run(claims).colliding == 0 <==> Harmonious(claims)
  {
    if claims.Then? {
      var past, c := claims.past, claims.last;
      assert OneSha(past) by { assert forall a :: Occurs(past, a) ==> Occurs(claims, a); }
      CollisionFreeExactly(past);
      HarmoniousStep(past, c);
      if !c.sourced && c.key in Run(past).owners {
        OwnerOccurs(past, c.key);
        var o := Run(past).owners[c.key];
        assert Occurs(claims, Claim(c.key, o.path, o.sha, false)) && Occurs(claims, c);
      }
    }
  }

  ghost predicate SameConcrete(a: Log<Claim>, b: Log<Claim>) {
    forall c: Claim :: !c.sourced ==> (Occurs(a, c) <==> Occurs(b, c))
  }

  /**
   A build without collisions does not depend on the order of its manifests: the same
   keys are concretely owned, with the same bundles, and the other order has no collision
   either.
   */
  lemma StrictBuildIgnoresOrder(a: Log<Claim>, b: Log<Claim>, key: string)
    requires OneSha(a) && SameConcrete(a, b) && Run(a).colliding == 0
    ensures Run(b).colliding == 0
    ensures LastConcrete(a, key).Some? <==> LastConcrete(b, key).Some?
    ensures LastConcrete(a, key).Some? ==>
              && key in Run(a).index && key in Run(b).index
              && Run(a).index[key].sha == Run(b).index[key].sha
  {
    hide Run;
    assert OneSha(b);
    CollisionFreeExactly(a);
    assert Harmonious(b);
    CollisionFreeExactly(b);
    KeyIsShown(a, key);
    KeyIsShown(b, key);
    if LastConcrete(a, key).Some? {
      LastOccurs(a, key);
      ConcreteClaimHasOwner(b, LastConcrete(a, key).value);
      LastOccurs(b, key);
    }
    if LastConcrete(b, key).Some? {
      LastOccurs(b, key);
      ConcreteClaimHasOwner(a, LastConcrete(b, key).value);
    }
  }

  /** Without `STRICT_CALLKEYS` the order does matter: the last manifest wins. */
  lemma LastWins()
    ensures var x, y := Claim("1_0xa_0xb", "a.json", "s", false), Claim("1_0xa_0xb", "b.json", "t", false);
            var xy, yx := Run(Then(Then(Start, x), y)), Run(Then(Then(Start, y), x));
            && xy.colliding == yx.colliding == 1
            && xy.index["1_0xa_0xb"].sha == "t" && yx.index["1_0xa_0xb"].sha == "s"
  {
    var x, y := Claim("1_0xa_0xb", "a.json", "s", false), Claim("1_0xa_0xb", "b.json", "t", false);
    assert "a.json"[0] != "b.json"[0];
    assert Run(Start) == EMPTY;
    assert Run(Then(Start, x)) == Step(EMPTY, x) && Run(Then(Start, y)) == Step(EMPTY, y);
    assert Run(Then(Then(Start, x), y)) == Step(Step(EMPTY, x), y);
    assert Run(Then(Then(Start, y), x)) == Step(Step(EMPTY, y), x);
  }

  // ---- manifest files have distinct paths ----

  predicate DistinctPaths(manifests: seq<Manifest>) {
    forall i, j :: 0 <= i < j < |manifests| ==> manifests[i].path != manifests[j].path
  }

  lemma {:induction false} KeysClaim(claims: Log<Claim>, path: string, sourced: bool, b: Bundle, n: nat, c: Claim)
    requires n <= |b.keys|
    ensures Occurs(AddKeys(claims, path, sourced, b, n), c) <==>
            Occurs(claims, c) || exists i :: 0 <= i < n && c == Claim(b.keys[i], path, b.sha, sourced)
  {
    if n > 0 { KeysClaim(claims, path, sourced, b, n - 1, c); }
  }

  lemma {:induction false} BundlesClaim(claims: Log<Claim>, path: string, sourced: bool, bundles: seq<Bundle>, n: nat,
                                        c: Claim)
    requires n <= |bundles|
    ensures Occurs(AddBundles(claims, path, sourced, bundles, n), c) <==>
            Occurs(claims, c) || exists i :: 0 <= i < n && Claims(path, sourced, bundles[i], c)
  {
    hide Occurs, AddKeys, Claims;
    if n > 0 {
      BundlesClaim(claims, path, sourced, bundles, n - 1, c);
      var b := bundles[n - 1];
      KeysClaim(AddBundles(claims, path, sourced, bundles, n - 1), path, sourced, b, |b.keys|, c);
      assert Claims(path, sourced, b, c) <==>
               exists i :: 0 <= i < |b.keys| && c == Claim(b.keys[i], path, b.sha, sourced)
        by { ClaimsMeans(path, sourced, b, c); }
    }
  }

  predicate Claims(path: string, sourced: bool, b: Bundle, c: Claim) {
    exists i :: 0 <= i < |b.keys| && c == Claim(b.keys[i], path, b.sha, sourced)
  }

  lemma ClaimsMeans(path: string, sourced: bool, b: Bundle, c: Claim)
    ensures Claims(path, sourced, b, c) <==>
              exists i :: 0 <= i < |b.keys| && c == Claim(b.keys[i], path, b.sha, sourced)
  {}

  predicate ClaimedBy(m: Manifest, c: Claim) {
    match m
    case Concrete(path, bundle) => Claims(path, false, bundle, c)
    case Sourced(path, bundles) => exists i :: 0 <= i < |bundles| && Claims(path, true, bundles[i], c)
  }

  lemma {:induction false} ManifestsClaim(manifests: seq<Manifest>, n: nat, c: Claim)
    requires n <= |manifests|
    ensures Occurs(ClaimsOf(manifests, n), c) <==> exists i :: 0 <= i < n && ClaimedBy(manifests[i], c)
  {
    hide AddBundles, Claims, ClaimedBy, Bundles;
    if n > 0 {
      ManifestsClaim(manifests, n - 1, c);
      var m := manifests[n - 1];
      BundlesClaim(ClaimsOf(manifests, n - 1), m.path, m.Sourced?, Bundles(m), |Bundles(m)|, c);
      OneManifestClaims(m, c);
    }
  }

  lemma OneManifestClaims(m: Manifest, c: Claim)
    ensures ClaimedBy(m, c) <==> exists i :: 0 <= i < |Bundles(m)| && Claims(m.path, m.Sourced?, Bundles(m)[i], c)
  {
    hide Claims;
    if m.Concrete? {
      assert Claims(m.path, m.Sourced?, Bundles(m)[0], c) <==> Claims(m.path, false, m.bundle, c);
    } else {
      assert Bundles(m) == m.bundles && m.Sourced? == true;
    }
  }

  lemma ConcreteSha(m: Manifest, c: Claim)
    requires ClaimedBy(m, c)
    ensures c.path == m.path && c.sourced == m.Sourced? && (m.Concrete? ==> c.sha == m.bundle.sha)
  {}

  /** So every build satisfies the condition above. */
  lemma BuildHasOneSha(manifests: seq<Manifest>)
    requires DistinctPaths(manifests)
    ensures OneSha(ClaimsOf(manifests, |manifests|))
  {
    hide ClaimedBy, ClaimsOf, Occurs;
    var claims := ClaimsOf(manifests, |manifests|);
    forall a, b | Occurs(claims, a) && Occurs(claims, b) && !a.sourced && !b.sourced && a.path == b.path
      ensures a.sha == b.sha
    {
      ManifestsClaim(manifests, |manifests|, a);
      ManifestsClaim(manifests, |manifests|, b);
      var i: nat :| i < |manifests| && ClaimedBy(manifests[i], a);
      var j: nat :| j < |manifests| && ClaimedBy(manifests[j], b);
      ConcreteSha(manifests[i], a);
      ConcreteSha(manifests[j], b);
    }
  }

  /** A successful strict build of the same manifest files in another order has the same bundles at concrete keys. */
  lemma StrictManifestsIgnoreOrder(a: seq<Manifest>, b: seq<Manifest>, key: string)
    requires DistinctPaths(a) && (forall m :: m in a <==> m in b)
    requires Run(ClaimsOf(a, |a|)).colliding == 0
    ensures var x, y := ClaimsOf(a, |a|), ClaimsOf(b, |b|);
            && Run(y).colliding == 0
            && (LastConcrete(x, key).Some? ==>
                  && key in Run(x).index && key in Run(y).index
                  && Run(x).index[key].sha == Run(y).index[key].sha)
  {
    hide Run, ClaimsOf, ClaimedBy, Occurs, LastConcrete, OneSha;
    var x, y := ClaimsOf(a, |a|), ClaimsOf(b, |b|);
    BuildHasOneSha(a);
    forall c
      ensures Occurs(x, c) <==> Occurs(y, c)
    {
      ManifestsClaim(a, |a|, c);
      ManifestsClaim(b, |b|, c);
      if i: nat :| i < |a| && ClaimedBy(a[i], c) {
        assert a[i] in b;
        var j: nat :| j < |b| && b[j] == a[i];
      }
      if j: nat :| j < |b| && ClaimedBy(b[j], c) {
        assert b[j] in a;
        var i: nat :| i < |a| && a[i] == b[j];
      }
    }
    StrictBuildIgnoresOrder(x, y, key);
  }
}
