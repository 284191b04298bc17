/**
 The surface-completeness gate: exactly which violations it reports, and what a pass
 means.
 */
module SurfaceGates {
  import opened Jsons
  import opened Options

  // ---- inputs ----

  /** `selector` is the lower-cased 4-byte selector of the item's signature. */
  datatype AbiItem = AbiItem(kind: string, stateMutability: Option<string>, selector: string)

  datatype Snapshot = Snapshot(chainId: int, address: string, abi: seq<AbiItem>)

  datatype Row = Row(decision: string, reason: string)

  /** A JSON object of decisions: its keys, and the row of each. */
  datatype Table = Table(keys: seq<string>, rows: map<string, Row>)

  datatype Coverage = Coverage(
    chainId: int, address: Option<string>, addresses: Option<seq<string>>, functions: Table, signedStructs: Table)

  datatype Unit = Unit(protocol: string, coverage: Coverage, snapshot: Snapshot)

  /** A contract; the address in lower case. */
  datatype Key = Key(chainId: int, addr: string)

  /** The selectors and signed types that authored manifests have at one contract. */
  datatype Manifests = Manifests(onchain: seq<string>, signed: seq<string>)

  const NO_MANIFESTS := Manifests([], [])

  /** `chainId` is `None` when it is no integer. */
  datatype Deployment = Deployment(chainId: Option<int>, address: string, decision: string, reason: string)

  datatype DeploymentList = DeploymentList(protocol: string, contracts: seq<Deployment>)

  ghost predicate Listing(t: Table) { forall k :: k in t.keys <==> k in t.rows }

  ghost predicate GoodUnit(u: Unit) { Listing(u.coverage.functions) && Listing(u.coverage.signedStructs) }

  // ---- derived data ----

  const NATIVE_TRANSFER_SELECTOR := "0x00000000"

  predicate HexDigit(c: char) { '0' <= c <= '9' || 'a' <= c <= 'f' || 'A' <= c <= 'F' }

  /** `0x` and that many hex digits. */
  predicate IsHex(s: string, digits: nat) {
    |s| == digits + 2 && s[0] == '0' && s[1] == 'x' && forall i :: 2 <= i < |s| ==> HexDigit(s[i])
  }

  /** What `trim` removes. */
  predicate Space(c: char) {
    || c in " \t\n\r\U{000B}\U{000C}\U{00A0}\U{1680}\U{2028}\U{2029}\U{202F}\U{205F}\U{3000}\U{FEFF}"
    || '\U{2000}' <= c <= '\U{200A}'
  }

  predicate Blank(s: string) { forall i :: 0 <= i < |s| ==> Space(s[i]) }

  predicate Mutating(item: AbiItem) {
    && item.kind == "function"
    && (item.stateMutability.None? || item.stateMutability.value in {"nonpayable", "payable"})
  }

  predicate InSurface(snap: Snapshot, sel: string) {
    exists i :: 0 <= i < |snap.abi| && Mutating(snap.abi[i]) && snap.abi[i].selector == sel
  }

  predicate NativeItem(item: AbiItem) {
    item.kind == "receive" || (item.kind == "fallback" && item.stateMutability == Some("payable"))
  }

  predicate HasNativeEntrypoint(snap: Snapshot) { exists i :: 0 <= i < |snap.abi| && NativeItem(snap.abi[i]) }

  method MutatingSelectors(snap: Snapshot) returns (surface: seq<string>)
    ensures forall sel :: sel in surface <==> InSurface(snap, sel)
  {
    surface := [];
    var i := 0;
    while i < |snap.abi|
      invariant 0 <= i <= |snap.abi|
      invariant forall sel :: sel in surface <==>
                exists j :: 0 <= j < i && Mutating(snap.abi[j]) && snap.abi[j].selector == sel
    {
      if Mutating(snap.abi[i]) && snap.abi[i].selector !in surface { surface := surface + [snap.abi[i].selector]; }
      i := i + 1;
    }
  }

  function LowerAll(xs: seq<string>): (r: seq<string>)
    ensures |r| == |xs| && forall i :: 0 <= i < |xs| ==> r[i] == Lower(xs[i])
  {
    seq(|xs|, i requires 0 <= i < |xs| => Lower(xs[i]))
  }

  function Addresses(cov: Coverage): seq<string> {
    if cov.addresses.Some? && |cov.addresses.value| > 0 then LowerAll(cov.addresses.value)
    else if cov.address.Some? && cov.address.value != "" then [Lower(cov.address.value)]
    else []
  }

  function At(byContract: map<Key, Manifests>, chainId: int, addr: string): Manifests {
    if Key(chainId, addr) in byContract then byContract[Key(chainId, addr)] else NO_MANIFESTS
  }

  predicate Covers(t: Table, k: string) { k in t.rows && t.rows[k].decision == "cover" }

  // ---- what a violation is ----

  datatype Failure =
    | NoAddress
    | ChainMismatch
    | AddressMismatch
    | Untriaged(sel: string)
    | Stale(sel: string)
    | Malformed(sel: string)
    | BadDecision(sel: string)
    | NoReason(sel: string)
    | NoManifest(sel: string, addr: string)
    | NotCovered(sel: string, addr: string)
    | SignedNotCovered(ptype: string, addr: string)
    | SignedNoManifest(ptype: string, addr: string)

  predicate RowViolation(u: Unit, f: Failure) {
    var fns := u.coverage.functions;
    match f
    case Stale(sel) =>
      sel in fns.rows &&
      if sel == NATIVE_TRANSFER_SELECTOR then !HasNativeEntrypoint(u.snapshot) else !InSurface(u.snapshot, sel)
    case Malformed(sel) => sel in fns.rows && !IsHex(sel, 8)
    case BadDecision(sel) => sel in fns.rows && fns.rows[sel].decision != "cover" && fns.rows[sel].decision != "exclude"
    case NoReason(sel) => sel in fns.rows && fns.rows[sel].decision == "exclude" && Blank(fns.rows[sel].reason)
    case _ => false
  }

  predicate AddressViolation(cov: Coverage, manifests: Manifests, addr: string, f: Failure) {
    match f
    case NoManifest(sel, a) => a == addr && Covers(cov.functions, sel) && sel !in manifests.onchain
    case NotCovered(sel, a) => a == addr && sel in manifests.onchain && !Covers(cov.functions, sel)
    case SignedNotCovered(p, a) => a == addr && p in manifests.signed && !Covers(cov.signedStructs, p)
    case SignedNoManifest(p, a) => a == addr && Covers(cov.signedStructs, p) && p !in manifests.signed
    case _ => false
  }

  predicate Violation(u: Unit, byContract: map<Key, Manifests>, f: Failure) {
    var cov, snap := u.coverage, u.snapshot;
    if Addresses(cov) == [] then f == NoAddress
    else
      || (f == ChainMismatch && cov.chainId != snap.chainId)
      || (f == AddressMismatch && cov.addresses.None? && cov.address.Some? && cov.address.value != ""
          && Lower(cov.address.value) != Lower(snap.address))
      || (f.Untriaged? && InSurface(snap, f.sel) && f.sel !in cov.functions.rows)
      || RowViolation(u, f)
      || exists i :: 0 <= i < |Addresses(cov)| &&
           AddressViolation(cov, At(byContract, cov.chainId, Addresses(cov)[i]), Addresses(cov)[i], f)
  }

  // ---- the checks ----

  /** I1: every mutating function of the snapshot is triaged. */
  method CheckTriage(u: Unit) returns (failures: seq<Failure>)
    ensures forall f :: f in failures <==>
              f.Untriaged? && InSurface(u.snapshot, f.sel) && f.sel !in u.coverage.functions.rows
  {
    hide InSurface;
    var surface := MutatingSelectors(u.snapshot);
    failures := [];
    var i := 0;
    while i < |surface|
      invariant 0 <= i <= |surface|
      invariant forall f :: f in failures <==>
                  f.Untriaged? && f.sel in surface[..i] && f.sel !in u.coverage.functions.rows
    {
      if surface[i] !in u.coverage.functions.rows { failures := failures + [Untriaged(surface[i])]; }
      assert surface[..i + 1] == surface[..i] + [surface[i]];
      i := i + 1;
    }
    assert surface[..i] == surface;
  }

  predicate RowFailureOf(u: Unit, sel: string, f: Failure) { RowViolation(u, f) && f.sel == sel }

  /** I1' for one key. */
  method CheckRow(u: Unit, surface: seq<string>, sel: string) returns (failures: seq<Failure>)
    requires sel in u.coverage.functions.rows && forall s :: s in surface <==> InSurface(u.snapshot, s)
    ensures forall f :: f in failures <==> RowFailureOf(u, sel, f)
  {
    hide InSurface, IsHex, Blank, HasNativeEntrypoint;
    var row := u.coverage.functions.rows[sel];
    failures := [];
    if sel == NATIVE_TRANSFER_SELECTOR {
      if !HasNativeEntrypoint(u.snapshot) { failures := failures + [Stale(sel)]; }
    } else if sel !in surface {
      failures := failures + [Stale(sel)];
    }
    if !IsHex(sel, 8) { failures := failures + [Malformed(sel)]; }
    if row.decision != "cover" && row.decision != "exclude" { failures := failures + [BadDecision(sel)]; }
    if row.decision == "exclude" && Blank(row.reason) { failures := failures + [NoReason(sel)]; }
  }

  /** I1': no stale or malformed coverage entries. */
  method CheckRows(u: Unit) returns (failures: seq<Failure>)
    requires GoodUnit(u)
    ensures forall f :: f in failures <==> RowViolation(u, f)
  {
    hide RowFailureOf, RowViolation, InSurface;
    var surface := MutatingSelectors(u.snapshot);
    var keys := u.coverage.functions.keys;
    failures := [];
    var i := 0;
    while i < |keys|
      invariant 0 <= i <= |keys|
      invariant forall f :: f in failures <==> exists j :: 0 <= j < i && RowFailureOf(u, keys[j], f)
    {
      var more := CheckRow(u, surface, keys[i]);
      failures := failures + more;
      i := i + 1;
    }
    forall f ensures RowViolation(u, f) <==> exists j :: 0 <= j < |keys| && RowFailureOf(u, keys[j], f) {
      RowsCoverAll(u, f);
    }
  }

  lemma RowsCoverAll(u: Unit, f: Failure)
    requires GoodUnit(u)
    ensures RowViolation(u, f) <==>
              exists j :: 0 <= j < |u.coverage.functions.keys| && RowFailureOf(u, u.coverage.functions.keys[j], f)
  {
    hide InSurface, IsHex, Blank, HasNativeEntrypoint;
    if RowViolation(u, f) {
      assert f.sel in u.coverage.functions.keys;
      var j :| 0 <= j < |u.coverage.functions.keys| && u.coverage.functions.keys[j] == f.sel;
      assert RowFailureOf(u, u.coverage.functions.keys[j], f);
    }
  }

  /** I2 and S2: every cover has a manifest. */
  method CheckCovers(t: Table, present: seq<string>) returns (missing: seq<string>)
    requires Listing(t)
    ensures forall k :: k in missing <==> Covers(t, k) && k !in present
  {
    missing := [];
    var i := 0;
    while i < |t.keys|
      invariant 0 <= i <= |t.keys|
      invariant forall k :: k in missing <==> k in t.keys[..i] && Covers(t, k) && k !in present
    {
      var k := t.keys[i];
      if t.rows[k].decision == "cover" && k !in present { missing := missing + [k]; }
      assert t.keys[..i + 1] == t.keys[..i] + [k];
      i := i + 1;
    }
    assert t.keys[..i] == t.keys;
  }

  /** I3 and S1: every manifest is a cover. */
  method CheckPresent(t: Table, present: seq<string>) returns (uncovered: seq<string>)
    ensures forall k :: k in uncovered <==> k in present && !Covers(t, k)
  {
    uncovered := [];
    var i := 0;
    while i < |present|
      invariant 0 <= i <= |present|
      invariant forall k :: k in uncovered <==> k in present[..i] && !Covers(t, k)
    {
      if !Covers(t, present[i]) { uncovered := uncovered + [present[i]]; }
      assert present[..i + 1] == present[..i] + [present[i]];
      i := i + 1;
    }
    assert present[..i] == present;
  }

  function Tagged(keys: seq<string>, tag: string -> Failure): (r: seq<Failure>)
    ensures |r| == |keys| && forall i :: 0 <= i < |keys| ==> r[i] == tag(keys[i])
  {
    seq(|keys|, i requires 0 <= i < |keys| => tag(keys[i]))
  }

  lemma TaggedHas(keys: seq<string>, tag: string -> Failure, f: Failure)
    ensures f in Tagged(keys, tag) <==> exists k :: k in keys && f == tag(k)
  {
    if f in Tagged(keys, tag) {
      var i: nat :| i < |keys| && Tagged(keys, tag)[i] == f;
      assert keys[i] in keys;
    }
    if k :| k in keys && f == tag(k) {
      var i: nat :| i < |keys| && keys[i] == k;
      assert Tagged(keys, tag)[i] == f;
    }
  }

  /** I2, I3, S1 and S2 at one address. */
  method CheckAddress(cov: Coverage, manifests: Manifests, addr: string) returns (failures: seq<Failure>)
    requires Listing(cov.functions) && Listing(cov.signedStructs)
    ensures forall f :: f in failures <==> AddressViolation(cov, manifests, addr, f)
  {
    var i2 := CheckCovers(cov.functions, manifests.onchain);
    var i3 := CheckPresent(cov.functions, manifests.onchain);
    var s1 := CheckPresent(cov.signedStructs, manifests.signed);
    var s2 := CheckCovers(cov.signedStructs, manifests.signed);
    var t2 := (k: string) => NoManifest(k, addr);
    var t3 := (k: string) => NotCovered(k, addr);
    var u1 := (k: string) => SignedNotCovered(k, addr);
    var u2 := (k: string) => SignedNoManifest(k, addr);
    failures := Tagged(i2, t2) + Tagged(i3, t3) + Tagged(s1, u1) + Tagged(s2, u2);
    forall f ensures f in failures <==> AddressViolation(cov, manifests, addr, f) {
      hide Tagged, Covers;
      TaggedHas(i2, t2, f);
      TaggedHas(i3, t3, f);
      TaggedHas(s1, u1, f);
      TaggedHas(s2, u2, f);
    }
  }

  /** Everything that is checked for one coverage file. */
  method CheckUnit(u: Unit, byContract: map<Key, Manifests>) returns (failures: seq<Failure>)
    requires GoodUnit(u)
    ensures forall f :: f in failures <==> Violation(u, byContract, f)
  {
    hide InSurface, RowViolation, AddressViolation, Addresses;
    var cov, snap := u.coverage, u.snapshot;
    var addresses := Addresses(cov);
    if |addresses| == 0 { return [NoAddress]; }
    failures := [];
    if cov.chainId != snap.chainId { failures := failures + [ChainMismatch]; }
    if cov.addresses.None? && cov.address.Some? && cov.address.value != ""
       && Lower(cov.address.value) != Lower(snap.address)
    {
      failures := failures + [AddressMismatch];
    }
    var i1 := CheckTriage(u);
    var rows := CheckRows(u);
    failures := failures + i1 + rows;
    ghost var before := failures;
    var i := 0;
    while i < |addresses|
      invariant 0 <= i <= |addresses|
      invariant forall f :: f in failures <==>
                f in before ||
                (exists j :: 0 <= j < i &&
                   AddressViolation(cov, At(byContract, cov.chainId, addresses[j]), addresses[j], f))
    {
      var more := CheckAddress(cov, At(byContract, cov.chainId, addresses[i]), addresses[i]);
      failures := failures + more;
      i := i + 1;
    }
  }

  // ---- I0: the deployment lists ----

  datatype ListFailure =
    | NoContracts
    | BadEntry(i: nat)
    | BadEntryDecision(i: nat)
    | Missed(i: nat)
    | EntryNoReason(i: nat)

  predicate GatedBy(u: Unit, protocol: string, key: Key) {
    u.protocol == protocol && u.coverage.chainId == key.chainId && key.addr in Addresses(u.coverage)
  }

  /** Some coverage file of the protocol gates this contract. */
  predicate Gated(units: seq<Unit>, n: nat, protocol: string, key: Key)
    requires n <= |units|
  {
    exists i :: 0 <= i < n && GatedBy(units[i], protocol, key)
  }

  predicate WellFormed(c: Deployment) { c.chainId.Some? && IsHex(c.address, 40) }

  predicate EntryViolation(units: seq<Unit>, list: DeploymentList, i: nat, f: ListFailure)
    requires i < |list.contracts|
  {
    var c := list.contracts[i];
    match f
    case NoContracts => false
    case BadEntry(k) => k == i && !WellFormed(c)
    case BadEntryDecision(k) => k == i && WellFormed(c) && c.decision != "cover" && c.decision != "exclude"
    case Missed(k) =>
      k == i && WellFormed(c) && c.decision == "cover"
        && !Gated(units, |units|, list.protocol, Key(c.chainId.value, Lower(c.address)))
    case EntryNoReason(k) => k == i && WellFormed(c) && c.decision == "exclude" && Blank(c.reason)
  }

  predicate ListViolation(units: seq<Unit>, list: DeploymentList, f: ListFailure) {
    if list.contracts == [] then f == NoContracts
    else exists i :: 0 <= i < |list.contracts| && EntryViolation(units, list, i, f)
  }

  ghost predicate GatedIs(units: seq<Unit>, protocol: string, gated: set<Key>) {
    forall key :: key in gated <==> Gated(units, |units|, protocol, key)
  }

  method CheckList(ghost units: seq<Unit>, gated: set<Key>, list: DeploymentList) returns (failures: seq<ListFailure>)
    requires GatedIs(units, list.protocol, gated)
    ensures forall f :: f in failures <==> ListViolation(units, list, f)
  {
    hide EntryViolation, GatedIs;
    if |list.contracts| == 0 { return [NoContracts]; }
    failures := [];
    var i := 0;
    while i < |list.contracts|
      invariant 0 <= i <= |list.contracts|
      invariant forall f :: f in failures <==> (exists j :: 0 <= j < i && EntryViolation(units, list, j, f))
    {
      var more := CheckEntry(units, gated, list, i);
      failures := failures + more;
      i := i + 1;
    }
  }

  method CheckEntry(ghost units: seq<Unit>, gated: set<Key>, list: DeploymentList, i: nat)
    returns (failures: seq<ListFailure>)
    requires i < |list.contracts| && GatedIs(units, list.protocol, gated)
    ensures forall f :: f in failures <==> EntryViolation(units, list, i, f)
  {
    hide IsHex, Blank, Gated;
    var c := list.contracts[i];
    if c.chainId.None? || !IsHex(c.address, 40) { return [BadEntry(i)]; }
    if c.decision != "cover" && c.decision != "exclude" { return [BadEntryDecision(i)]; }
    if c.decision == "cover" {
      return if Key(c.chainId.value, Lower(c.address)) !in gated then [Missed(i)] else [];
    }
    return if Blank(c.reason) then [EntryNoReason(i)] else [];
  }

  // ---- the whole gate ----

  type GatedKeys = map<string, set<Key>>

  function GatedIn(gated: GatedKeys, protocol: string): set<Key> { if protocol in gated then gated[protocol] else {} }

  ghost predicate GatedSoFar(gated: GatedKeys, units: seq<Unit>, n: nat)
    requires n <= |units|
  {
    forall protocol, key :: key in GatedIn(gated, protocol) <==> Gated(units, n, protocol, key)
  }

  method AddGated(gated: GatedKeys, u: Unit) returns (r: GatedKeys)
    ensures forall protocol, key :: key in GatedIn(r, protocol) <==>
              key in GatedIn(gated, protocol) || GatedBy(u, protocol, key)
  {
    hide Addresses;
    var addresses := Addresses(u.coverage);
    var mine := GatedIn(gated, u.protocol);
    var i := 0;
    while i < |addresses|
      invariant 0 <= i <= |addresses|
      invariant forall key :: key in mine <==>
                key in GatedIn(gated, u.protocol) || (key.chainId == u.coverage.chainId && key.addr in addresses[..i])
    {
      mine := mine + {Key(u.coverage.chainId, addresses[i])};
      assert addresses[..i + 1] == addresses[..i] + [addresses[i]];
      i := i + 1;
    }
    assert addresses[..i] == addresses;
    r := if |addresses| == 0 then gated else gated[u.protocol := mine];
  }

  datatype Report = InUnit(i: nat, f: Failure) | InList(j: nat, g: ListFailure)

  predicate UnitReport(units: seq<Unit>, byContract: map<Key, Manifests>, n: nat, r: Report)
    requires n <= |units|
  {
    r.InUnit? && r.i < n && Violation(units[r.i], byContract, r.f)
  }

  predicate ListReport(units: seq<Unit>, lists: seq<DeploymentList>, n: nat, r: Report)
    requires n <= |lists|
  {
    r.InList? && r.j < n && ListViolation(units, lists[r.j], r.g)
  }

  /** What there is to report about a registry. */
  predicate IsViolation(units: seq<Unit>, byContract: map<Key, Manifests>, lists: seq<DeploymentList>, r: Report) {
    UnitReport(units, byContract, |units|, r) || ListReport(units, lists, |lists|, r)
  }

  function InUnits(failures: seq<Failure>, i: nat): (r: seq<Report>)
    ensures |r| == |failures| && forall k :: 0 <= k < |r| ==> r[k] == InUnit(i, failures[k])
  {
    seq(|failures|, k requires 0 <= k < |failures| => InUnit(i, failures[k]))
  }

  function InLists(failures: seq<ListFailure>, j: nat): (r: seq<Report>)
    ensures |r| == |failures| && forall k :: 0 <= k < |r| ==> r[k] == InList(j, failures[k])
  {
    seq(|failures|, k requires 0 <= k < |failures| => InList(j, failures[k]))
  }

  lemma InUnitsHas(failures: seq<Failure>, i: nat, r: Report)
    ensures r in InUnits(failures, i) <==> r.InUnit? && r.i == i && r.f in failures
  {
    if r.InUnit? && r.i == i && r.f in failures {
      var k: nat :| k < |failures| && failures[k] == r.f;
      assert InUnits(failures, i)[k] == r;
    }
  }

  lemma InListsHas(failures: seq<ListFailure>, j: nat, r: Report)
    ensures r in InLists(failures, j) <==> r.InList? && r.j == j && r.g in failures
  {
    if r.InList? && r.j == j && r.g in failures {
      var k: nat :| k < |failures| && failures[k] == r.g;
      assert InLists(failures, j)[k] == r;
    }
  }

  method CheckUnits(units: seq<Unit>, byContract: map<Key, Manifests>) returns (reports: seq<Report>, gated: GatedKeys)
    requires forall i :: 0 <= i < |units| ==> GoodUnit(units[i])
    ensures forall r :: r in reports <==> UnitReport(units, byContract, |units|, r)
    ensures GatedSoFar(gated, units, |units|)
  {
    hide Violation, GatedBy, GoodUnit, GatedIn, InUnits;
    reports, gated := [], map[];
    assert GatedSoFar(gated, units, 0) by { NothingGated(units); }
    var i := 0;
    while i < |units|
      invariant 0 <= i <= |units|
      invariant forall r :: r in reports <==> UnitReport(units, byContract, i, r)
      invariant GatedSoFar(gated, units, i)
    {
      var failures := CheckUnit(units[i], byContract);
      ghost var before := reports;
      reports := reports + InUnits(failures, i);
      forall r ensures r in reports <==> UnitReport(units, byContract, i + 1, r) { InUnitsHas(failures, i, r); }
      var next := AddGated(gated, units[i]);
      assert GatedSoFar(next, units, i + 1) by { GatedStep(gated, next, units, i); }
      gated := next;
      i := i + 1;
    }
  }

  lemma NothingGated(units: seq<Unit>)
    ensures GatedSoFar(map[], units, 0)
  {}

  lemma GatedStep(gated: GatedKeys, next: GatedKeys, units: seq<Unit>, n: nat)
    requires n < |units| && GatedSoFar(gated, units, n)
    requires forall p, key :: key in GatedIn(next, p) <==> key in GatedIn(gated, p) || GatedBy(units[n], p, key)
    ensures GatedSoFar(next, units, n + 1)
  {
    hide GatedBy, GatedIn;
    forall p: string, key: Key
      ensures Gated(units, n + 1, p, key) <==> Gated(units, n, p, key) || GatedBy(units[n], p, key)
    {
      if Gated(units, n, p, key) {
        var i :| 0 <= i < n && GatedBy(units[i], p, key);
        assert 0 <= i < n + 1;
      }
    }
  }

  /** The gate reports exactly the violations there are. */
  method Gate(units: seq<Unit>, byContract: map<Key, Manifests>, lists: seq<DeploymentList>)
    returns (reports: seq<Report>)
    requires forall i :: 0 <= i < |units| ==> GoodUnit(units[i])
    ensures forall r :: r in reports <==> IsViolation(units, byContract, lists, r)
  {
    hide UnitReport, ListViolation, Gated, GoodUnit, GatedIn, InLists;
    var gated;
    reports, gated := CheckUnits(units, byContract);
    var i := 0;
    while i < |lists|
      invariant 0 <= i <= |lists|
      invariant forall r :: r in reports <==>
                  UnitReport(units, byContract, |units|, r) || ListReport(units, lists, i, r)
    {
      var mine := GatedIn(gated, lists[i].protocol);
      assert GatedIs(units, lists[i].protocol, mine);
      var failures := CheckList(units, mine, lists[i]);
      ghost var before := reports;
      reports := reports + InLists(failures, i);
      forall r
        ensures r in reports <==> UnitReport(units, byContract, |units|, r) || ListReport(units, lists, i + 1, r)
      {
        InListsHas(failures, i, r);
      }
      i := i + 1;
    }
  }

  // ---- what a pass means ----

  /** An item of the ABI through which a transaction can change something, and its selector. */
  predicate Changes(item: AbiItem, sel: string) {
    && item.kind == "function" && item.selector == sel
    && match item.stateMutability case None => true case Some(m) => m == "nonpayable" || m == "payable"
  }

  /** An item that takes a bare transfer. */
  predicate TakesTransfers(item: AbiItem) {
    match item.kind
    case "receive" => true
    case "fallback" => item.stateMutability == Some("payable")
    case _ => false
  }

  /** A row says to cover, or gives a reason not to, in more than white space. */
  predicate DecidedRow(row: Row) {
    || row.decision == "cover"
    || (row.decision == "exclude" && exists i :: 0 <= i < |row.reason| && Printed(row.reason[i] as int))
  }

  predicate Printed(c: int) {
    && !(9 <= c <= 13) && c != 32 && c != 160 && c != 5760 && !(8192 <= c <= 8202) && c != 8232 && c != 8233
    && c != 8239 && c != 8287 && c != 12288 && c != 65279
  }

  predicate Hexadecimal(s: string, digits: nat) {
    |s| == 2 + digits && s[..2] == "0x" && forall i :: 2 <= i < |s| ==> s[i] in "0123456789abcdefABCDEF"
  }

  /** A coverage file that decides every mutating function, and nothing that is not there. */
  ghost predicate Triaged(u: Unit) {
    var abi, fns := u.snapshot.abi, u.coverage.functions;
    && (forall i :: 0 <= i < |abi| && Changes(abi[i], abi[i].selector) ==> abi[i].selector in fns.rows)
    && (forall sel :: sel in fns.rows ==> Hexadecimal(sel, 8) && DecidedRow(fns.rows[sel]) && Grounded(abi, sel))
  }

  /** The ABI has what the key is for. */
  predicate Grounded(abi: seq<AbiItem>, sel: string) {
    if sel == "0x00000000" then exists i :: 0 <= i < |abi| && TakesTransfers(abi[i])
    else exists i :: 0 <= i < |abi| && Changes(abi[i], sel)
  }

  /** The contract is among those of the coverage file: its list, or without one its single address. */
  predicate Lists(cov: Coverage, addr: string) {
    match cov.addresses
    case None => cov.address.Some? && cov.address.value != "" && Lower(cov.address.value) == addr
    case Some(many) =>
      if many == [] then cov.address.Some? && cov.address.value != "" && Lower(cov.address.value) == addr
      else exists i :: 0 <= i < |many| && Lower(many[i]) == addr
  }

  /** At one address, covered is the same as having a manifest, for functions and for signed types. */
  ghost predicate Consistent(cov: Coverage, byContract: map<Key, Manifests>, addr: string) {
    var key, fns, structs := Key(cov.chainId, addr), cov.functions.rows, cov.signedStructs.rows;
    && (forall sel :: sel in fns && fns[sel].decision == "cover" <==>
                      key in byContract && sel in byContract[key].onchain)
    && (forall p :: p in structs && structs[p].decision == "cover" <==>
                    key in byContract && p in byContract[key].signed)
  }

  ghost predicate UnitComplete(u: Unit, byContract: map<Key, Manifests>) {
    var cov, snap := u.coverage, u.snapshot;
    && (exists addr :: Lists(cov, addr))
    && cov.chainId == snap.chainId
    && (cov.addresses.None? ==> Lists(cov, Lower(snap.address)))
    && Triaged(u)
    && forall addr :: Lists(cov, addr) ==> Consistent(cov, byContract, addr)
  }

  /** Every deployed contract is decided: gated, or excluded for a reason. */
  ghost predicate Inventoried(units: seq<Unit>, list: DeploymentList) {
    && list.contracts != []
    && forall i :: 0 <= i < |list.contracts| ==> Decided(units, list.protocol, list.contracts[i])
  }

  ghost predicate Decided(units: seq<Unit>, protocol: string, c: Deployment) {
    && c.chainId.Some? && Hexadecimal(c.address, 40) && DecidedRow(Row(c.decision, c.reason))
    && (c.decision == "cover" ==>
          exists i :: 0 <= i < |units| && units[i].protocol == protocol &&
                      units[i].coverage.chainId == c.chainId.value && Lists(units[i].coverage, Lower(c.address)))
  }

  ghost predicate Complete(units: seq<Unit>, byContract: map<Key, Manifests>, lists: seq<DeploymentList>) {
    && (forall i :: 0 <= i < |units| ==> UnitComplete(units[i], byContract))
    && (forall j :: 0 <= j < |lists| ==> Inventoried(units, lists[j]))
  }

  // ---- the two ways of saying it ----

  lemma ChangesExactly(item: AbiItem, sel: string)
    ensures Changes(item, sel) <==> Mutating(item) && item.selector == sel
  {}

  lemma TransfersExactly(item: AbiItem)
    ensures TakesTransfers(item) <==> NativeItem(item)
  {}

  lemma HexExactly(s: string, digits: nat)
    ensures Hexadecimal(s, digits) <==> IsHex(s, digits)
  {
    hide HexDigit;
    if |s| == digits + 2 {
      assert s[..2] == "0x" <==> s[0] == '0' && s[1] == 'x';
      forall i | 2 <= i < |s| ensures s[i] in "0123456789abcdefABCDEF" <==> HexDigit(s[i]) { DigitExactly(s[i]); }
    }
  }

  lemma DigitExactly(c: char)
    ensures c in "0123456789abcdefABCDEF" <==> HexDigit(c)
  {}

  lemma SpaceExactly(c: char)
    ensures Printed(c as int) <==> !Space(c)
  {}

  lemma RowExactly(row: Row)
    ensures DecidedRow(row) <==> row.decision == "cover" || (row.decision == "exclude" && !Blank(row.reason))
  {
    hide Printed, Space;
    forall i | 0 <= i < |row.reason|
      ensures Printed(row.reason[i] as int) <==> !Space(row.reason[i])
    {
      SpaceExactly(row.reason[i]);
    }
  }

  lemma ListsExactly(cov: Coverage, addr: string)
    ensures Lists(cov, addr) <==> addr in Addresses(cov)
  {
    hide Lower;
    if cov.addresses.Some? && cov.addresses.value != [] {
      var many := cov.addresses.value;
      assert forall i :: 0 <= i < |many| ==> LowerAll(many)[i] == Lower(many[i]);
    }
  }

  lemma SurfaceExactly(snap: Snapshot, sel: string)
    ensures InSurface(snap, sel) <==> exists i :: 0 <= i < |snap.abi| && Changes(snap.abi[i], sel)
    ensures HasNativeEntrypoint(snap) <==> exists i :: 0 <= i < |snap.abi| && TakesTransfers(snap.abi[i])
  {
    hide Changes, Mutating, TakesTransfers, NativeItem;
    forall i | 0 <= i < |snap.abi|
      ensures Changes(snap.abi[i], sel) <==> Mutating(snap.abi[i]) && snap.abi[i].selector == sel
      ensures TakesTransfers(snap.abi[i]) <==> NativeItem(snap.abi[i])
    {
      ChangesExactly(snap.abi[i], sel);
      TransfersExactly(snap.abi[i]);
    }
  }

  lemma KeyExactly(u: Unit, sel: string)
    requires sel in u.coverage.functions.rows
    ensures
      Hexadecimal(sel, 8) && DecidedRow(u.coverage.functions.rows[sel]) && Grounded(u.snapshot.abi, sel) <==>
      && !RowViolation(u, Stale(sel)) && !RowViolation(u, Malformed(sel))
      && !RowViolation(u, BadDecision(sel)) && !RowViolation(u, NoReason(sel))
  {
    hide Hexadecimal, IsHex, DecidedRow, Blank, InSurface, HasNativeEntrypoint, Changes, TakesTransfers;
    HexExactly(sel, 8);
    RowExactly(u.coverage.functions.rows[sel]);
    SurfaceExactly(u.snapshot, sel);
  }

  lemma TriagedExactly(u: Unit)
    ensures Triaged(u) <==>
            && (forall sel :: !(InSurface(u.snapshot, sel) && sel !in u.coverage.functions.rows))
            && (forall f :: !RowViolation(u, f))
  {
    hide InSurface, Hexadecimal, DecidedRow, Grounded, Changes, HasNativeEntrypoint, TakesTransfers;
    var abi, rows := u.snapshot.abi, u.coverage.functions.rows;
    AllInSurface(u);
    if Triaged(u) {
      forall f ensures !RowViolation(u, f) {
        if RowViolation(u, f) { KeyExactly(u, f.sel); }
      }
    }
    if forall f :: !RowViolation(u, f) {
      forall sel | sel in rows
        ensures Hexadecimal(sel, 8) && DecidedRow(rows[sel]) && Grounded(abi, sel)
      {
        KeyExactly(u, sel);
      }
    }
  }

  /** Every mutating function has a row, said of the ABI and of its selectors. */
  lemma AllInSurface(u: Unit)
    ensures
      var abi, rows := u.snapshot.abi, u.coverage.functions.rows;
      (forall i :: 0 <= i < |abi| && Changes(abi[i], abi[i].selector) ==> abi[i].selector in rows) <==>
      (forall sel :: !(InSurface(u.snapshot, sel) && sel !in rows))
  {
    hide HasNativeEntrypoint, TakesTransfers, InSurface;
    var abi, rows := u.snapshot.abi, u.coverage.functions.rows;
    forall sel
      ensures InSurface(u.snapshot, sel) <==> exists i :: 0 <= i < |abi| && Changes(abi[i], sel)
    {
      SurfaceExactly(u.snapshot, sel);
    }
  }

  lemma ConsistentExactly(cov: Coverage, byContract: map<Key, Manifests>, addr: string)
    ensures Consistent(cov, byContract, addr) <==>
            forall f :: !AddressViolation(cov, At(byContract, cov.chainId, addr), addr, f)
  {
    var manifests := At(byContract, cov.chainId, addr);
    if forall f :: !AddressViolation(cov, manifests, addr, f) {
      var key, fns, structs := Key(cov.chainId, addr), cov.functions.rows, cov.signedStructs.rows;
      forall k
        ensures k in fns && fns[k].decision == "cover" <==> key in byContract && k in byContract[key].onchain
        ensures k in structs && structs[k].decision == "cover" <==> key in byContract && k in byContract[key].signed
      {
        assert !AddressViolation(cov, manifests, addr, NoManifest(k, addr));
        assert !AddressViolation(cov, manifests, addr, NotCovered(k, addr));
        assert !AddressViolation(cov, manifests, addr, SignedNotCovered(k, addr));
        assert !AddressViolation(cov, manifests, addr, SignedNoManifest(k, addr));
      }
    }
  }

  /** No violation at any of the addresses, one by one or all at once. */
  lemma AddressesExactly(u: Unit, byContract: map<Key, Manifests>)
    ensures
      var cov := u.coverage;
      (forall addr :: Lists(cov, addr) ==> Consistent(cov, byContract, addr)) <==>
      (forall i, f :: 0 <= i < |Addresses(cov)| ==>
         !AddressViolation(cov, At(byContract, cov.chainId, Addresses(cov)[i]), Addresses(cov)[i], f))
  {
    hide Lists, Addresses, Consistent, AddressViolation, At;
    var cov := u.coverage;
    forall addr ensures Lists(cov, addr) <==> addr in Addresses(cov) { ListsExactly(cov, addr); }
    forall addr
      ensures Consistent(cov, byContract, addr) <==>
              forall f :: !AddressViolation(cov, At(byContract, cov.chainId, addr), addr, f)
    {
      ConsistentExactly(cov, byContract, addr);
    }
  }

  lemma UnitCompleteExactly(u: Unit, byContract: map<Key, Manifests>)
    ensures UnitComplete(u, byContract) <==> forall f :: !Violation(u, byContract, f)
  {
    hide InSurface, RowViolation, AddressViolation, Triaged, Consistent, At;
    var cov, snap := u.coverage, u.snapshot;
    TriagedExactly(u);
    AddressesExactly(u, byContract);
    AddressAgrees(u);
    hide Lists, Addresses;
    if forall f :: !Violation(u, byContract, f) {
      assert !Violation(u, byContract, NoAddress);
      assert !Violation(u, byContract, ChainMismatch);
      assert !Violation(u, byContract, AddressMismatch);
      forall sel ensures !(InSurface(snap, sel) && sel !in cov.functions.rows) {
        assert !Violation(u, byContract, Untriaged(sel));
      }
      forall f ensures !RowViolation(u, f) { assert !Violation(u, byContract, f); }
      forall i, f | 0 <= i < |Addresses(cov)|
        ensures !AddressViolation(cov, At(byContract, cov.chainId, Addresses(cov)[i]), Addresses(cov)[i], f)
      {
        assert !Violation(u, byContract, f);
      }
    }
  }

  lemma AddressAgrees(u: Unit)
    ensures (exists addr :: Lists(u.coverage, addr)) <==> Addresses(u.coverage) != []
    ensures Addresses(u.coverage) != [] ==>
              ((u.coverage.addresses.None? ==> Lists(u.coverage, Lower(u.snapshot.address))) <==>
               !(u.coverage.addresses.None? && u.coverage.address.Some? && u.coverage.address.value != ""
                 && Lower(u.coverage.address.value) != Lower(u.snapshot.address)))
  {
    hide Lower;
    forall addr ensures Lists(u.coverage, addr) <==> addr in Addresses(u.coverage) { ListsExactly(u.coverage, addr); }
    if Addresses(u.coverage) != [] { assert Lists(u.coverage, Addresses(u.coverage)[0]); }
  }

  lemma DecidedExactly(units: seq<Unit>, list: DeploymentList, i: nat)
    requires i < |list.contracts|
    ensures Decided(units, list.protocol, list.contracts[i]) <==> forall f :: !EntryViolation(units, list, i, f)
  {
    hide IsHex, Hexadecimal, Blank, DecidedRow, Gated, Lists, Lower;
    var c := list.contracts[i];
    HexExactly(c.address, 40);
    RowExactly(Row(c.decision, c.reason));
    if c.chainId.Some? { GatedExactly(units, list.protocol, c.chainId.value, Lower(c.address)); }
    if forall f :: !EntryViolation(units, list, i, f) {
      assert !EntryViolation(units, list, i, BadEntry(i));
      assert !EntryViolation(units, list, i, BadEntryDecision(i));
      assert !EntryViolation(units, list, i, Missed(i));
      assert !EntryViolation(units, list, i, EntryNoReason(i));
    }
  }

  lemma GatedExactly(units: seq<Unit>, protocol: string, chainId: int, addr: string)
    ensures Gated(units, |units|, protocol, Key(chainId, addr)) <==>
            exists i :: 0 <= i < |units| && units[i].protocol == protocol && units[i].coverage.chainId == chainId &&
                        Lists(units[i].coverage, addr)
  {
    hide Lists, Addresses;
    forall i | 0 <= i < |units|
      ensures Lists(units[i].coverage, addr) <==> addr in Addresses(units[i].coverage)
    {
      ListsExactly(units[i].coverage, addr);
    }
  }

  lemma InventoriedExactly(units: seq<Unit>, list: DeploymentList)
    ensures Inventoried(units, list) <==> forall f :: !ListViolation(units, list, f)
  {
    hide Decided, EntryViolation;
    forall i | 0 <= i < |list.contracts|
      ensures Decided(units, list.protocol, list.contracts[i]) <==> forall f :: !EntryViolation(units, list, i, f)
    {
      DecidedExactly(units, list, i);
    }
    if forall f :: !ListViolation(units, list, f) {
      assert !ListViolation(units, list, NoContracts);
      forall i, f | 0 <= i < |list.contracts|
        ensures !EntryViolation(units, list, i, f)
      {
        assert !ListViolation(units, list, f);
      }
    } else {
      var f :| ListViolation(units, list, f);
      if list.contracts != [] {
        var i :| 0 <= i < |list.contracts| && EntryViolation(units, list, i, f);
        assert !Decided(units, list.protocol, list.contracts[i]);
      }
    }
  }

  /** There is nothing to report exactly when the registry's surface is complete. */
  lemma PassExactly(units: seq<Unit>, byContract: map<Key, Manifests>, lists: seq<DeploymentList>)
    ensures Complete(units, byContract, lists) <==> forall r :: !IsViolation(units, byContract, lists, r)
  {
    hide Violation, ListViolation, UnitComplete, Inventoried;
    forall i | 0 <= i < |units| { UnitCompleteExactly(units[i], byContract); }
    forall j | 0 <= j < |lists| { InventoriedExactly(units, lists[j]); }
    if forall r :: !IsViolation(units, byContract, lists, r) {
      forall i, f | 0 <= i < |units| ensures !Violation(units[i], byContract, f) {
        assert !IsViolation(units, byContract, lists, InUnit(i, f));
      }
      forall j, g | 0 <= j < |lists| ensures !ListViolation(units, lists[j], g) {
        assert !IsViolation(units, byContract, lists, InList(j, g));
      }
    }
  }

  /** After a pass, two coverage files that gate the same contract cover the same selectors and signed types. */
  lemma SameContractSameCover(units: seq<Unit>, byContract: map<Key, Manifests>, i: nat, j: nat, addr: string,
                              sel: string)
    requires i < |units| && j < |units|
    requires UnitComplete(units[i], byContract) && UnitComplete(units[j], byContract)
    requires units[i].coverage.chainId == units[j].coverage.chainId
    requires Lists(units[i].coverage, addr) && Lists(units[j].coverage, addr)
    ensures Covers(units[i].coverage.functions, sel) <==> Covers(units[j].coverage.functions, sel)
    ensures Covers(units[i].coverage.signedStructs, sel) <==> Covers(units[j].coverage.signedStructs, sel)
  {
    hide Triaged, Lists;
  }
}
