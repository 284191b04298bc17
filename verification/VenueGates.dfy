/**
 The gate on a venue's `/exchange` requests: the body is parsed into one payload per
 guarded action, every payload is put to the policies, and the request goes through
 only if all are approved.
 */
module VenueGates {
  import opened Options
  import opened Jsons

  /** `String(v)` and `Number(v)` of an arbitrary value, and `JSON.parse`. */
  datatype Text = Text(toText: Json -> string, toNumber: Json -> real, parse: string -> Option<Json>)

  datatype OrderWire = OrderWire(a: real, b: bool, p: string, s: string, r: bool, t: Json, c: Option<string>)

  datatype Wire =
    | Order(order: OrderWire)
    | UpdateLeverage(assetIndex: real, isCross: bool, leverage: real)
    | Withdraw(destination: string, amount: string)
    | UsdSend(destination: string, amount: string)
    | SpotSend(destination: string, token: string, amount: string)
    | UsdClassTransfer(amount: string, toPerp: bool)
    | SendAsset(destination: string, sourceDex: string, destinationDex: string, token: string, amount: string)
    | SendToEvmWithData(token: string, amount: string, sourceDex: string, destinationRecipient: string, data: string)
    | CDeposit(wei: string)
    | CWithdraw(wei: string)
    | VaultTransfer(vaultAddress: string, isDeposit: bool, usd: string)
    | SubAccountTransfer(subAccountUser: string, isDeposit: bool, usd: string)
    | TokenDelegate(validator: string, isUndelegate: bool, wei: string)
    | TwapOrder(assetIndex: real, isBuy: bool, size: string, reduceOnly: bool, minutes: real, randomize: bool)
    | UpdateIsolatedMargin(assetIndex: real, isBuy: bool, ntli: string)
    | Unknown(actionType: string)

  /** Where the request goes, and on whose behalf it is made. */
  datatype Envelope = Envelope(venue: string, endpoint: string, hostname: string, nonce: Option<real>,
                               vaultAddress: Option<string>)

  datatype Payload = Payload(envelope: Envelope, wire: Wire)

  const BENIGN: set<string> := {
    "cancel", "cancelByCloid", "twapCancel", "scheduleCancel", "noop", "reserveRequestWeight", "setReferrer",
    "createSubAccount", "subAccountModify", "vaultModify", "spotUser", "evmUserModify"}

  function OrEmpty(v: Json): Json { if v.Undefined? || v.Null? then Str("") else v }

  function StrOr(v: Json): string { if v.Str? then v.s else "" }

  predicate IsTrue(v: Json) { v == Bool(true) }

  // ---- order legs ----

  /** An order leg carries at least a numeric asset index and a boolean side. */
  predicate ValidLeg(o: Json) { o.Obj? && Get(o.members, "a").Num? && Get(o.members, "b").Bool? }

  function OrderWireFrom(t: Text, o: Json): Option<OrderWire> {
    if !ValidLeg(o) then None
    else
      var m := o.members;
      Some(OrderWire(Get(m, "a").n, Get(m, "b").b, t.toText(OrEmpty(Get(m, "p"))), t.toText(OrEmpty(Get(m, "s"))),
                     IsTrue(Get(m, "r")), Get(m, "t"), if Get(m, "c").Str? then Some(Get(m, "c").s) else None))
  }

  function ToSeq(items: List<Json>): seq<Json> { if items.Nil? then [] else [items.head] + ToSeq(items.tail) }

  function LegPayload(t: Text, e: Envelope, leg: Json): seq<Payload> {
    match OrderWireFrom(t, leg)
    case None => []
    case Some(w) => [Payload(e, Order(w))]
  }

  /** The payloads of the valid ones among the first `n` legs. */
  function OrderPayloads(t: Text, e: Envelope, legs: seq<Json>, n: nat): seq<Payload>
    requires n <= |legs|
  {
    if n == 0 then [] else OrderPayloads(t, e, legs, n - 1) + LegPayload(t, e, legs[n - 1])
  }

  function Marker(e: Envelope, actionType: string): Payload { Payload(e, Unknown(actionType)) }

  /** One payload per valid leg, in order, and one marker when a leg is invalid or there is none. */
  function OrderSpec(t: Text, e: Envelope, orders: Json): seq<Payload> {
    if !orders.Arr? then [Marker(e, "order")]
    else
      var legs := ToSeq(orders.items);
      OrderPayloads(t, e, legs, |legs|) +
      if legs == [] || exists i :: 0 <= i < |legs| && !ValidLeg(legs[i]) then [Marker(e, "order")] else []
  }

  method ParseOrders(t: Text, e: Envelope, orders: Json) returns (payloads: seq<Payload>)
    ensures payloads == OrderSpec(t, e, orders)
    ensures payloads != []
  {
    if !orders.Arr? || orders.items.Nil? {
      payloads := [Marker(e, "order")];
      return;
    }
    var legs := ToSeq(orders.items);
    payloads := [];
    var sawInvalidLeg := false;
    var i := 0;
    while i < |legs|
      invariant 0 <= i <= |legs|
      invariant payloads == OrderPayloads(t, e, legs, i)
      invariant sawInvalidLeg == exists j :: 0 <= j < i && !ValidLeg(legs[j])
      invariant i > 0 ==> payloads != [] || sawInvalidLeg
    {
      var wire := OrderWireFrom(t, legs[i]);
      if wire.None? {
        sawInvalidLeg := true;
      } else {
        payloads := payloads + [Payload(e, Order(wire.value))];
      }
      i := i + 1;
    }
    if sawInvalidLeg { payloads := payloads + [Marker(e, "order")]; }
    if payloads == [] { payloads := [Marker(e, "order")]; }
  }

  /** The order specs carried by `modify` and `batchModify`. */
  function ModifyLegs(action: List<Member>): seq<Json> {
    var edits := Get(action, "modifies");
    if edits.Arr? then OrdersOf(edits.items) else [Get(action, "order")]
  }

  function OrdersOf(edits: List<Json>): seq<Json> {
    if edits.Nil? then []
    else [if edits.head.Obj? then Get(edits.head.members, "order") else Undefined] + OrdersOf(edits.tail)
  }

  /** The valid legs in order; nothing at all, and so no guard, when there is none. */
  function ModifySpec(t: Text, e: Envelope, action: List<Member>): Option<seq<Payload>> {
    var legs := ModifyLegs(action);
    if OrderPayloads(t, e, legs, |legs|) == [] then None else Some(OrderPayloads(t, e, legs, |legs|))
  }

  method ParseModify(t: Text, e: Envelope, action: List<Member>) returns (r: Option<seq<Payload>>)
    ensures r == ModifySpec(t, e, action)
  {
    hide OrderWireFrom, ModifyLegs;
    var legs := ModifyLegs(action);
    var payloads := [];
    var i := 0;
    while i < |legs|
      invariant 0 <= i <= |legs|
      invariant payloads == OrderPayloads(t, e, legs, i)
    {
      var wire := OrderWireFrom(t, legs[i]);
      if wire.Some? { payloads := payloads + [Payload(e, Order(wire.value))]; }
      i := i + 1;
    }
    return if |payloads| > 0 then Some(payloads) else None;
  }

  // ---- single actions ----

  /** The action types with a wire of their own besides orders. */
  const MODELED: set<string> := {
    "updateLeverage", "withdraw3", "usdSend", "spotSend", "usdClassTransfer", "sendAsset", "sendToEvmWithData",
    "cDeposit", "cWithdraw", "vaultTransfer", "subAccountTransfer", "tokenDelegate", "twapOrder",
    "updateIsolatedMargin"}

  /** The wire of a single action; `None` when a field it needs is missing. */
  function SingleWire(t: Text, kind: string, m: List<Member>): Option<Wire> {
    match kind
    case "updateLeverage" =>
      if !Get(m, "asset").Num? || !Get(m, "isCross").Bool? || !Get(m, "leverage").Num? then None
      else Some(UpdateLeverage(Get(m, "asset").n, Get(m, "isCross").b, Get(m, "leverage").n))
    case "withdraw3" =>
      if !Get(m, "destination").Str? || Get(m, "amount").Undefined? then None
      else Some(Withdraw(Get(m, "destination").s, t.toText(Get(m, "amount"))))
    case "usdSend" =>
      if !Get(m, "destination").Str? || Get(m, "amount").Undefined? then None
      else Some(UsdSend(Get(m, "destination").s, t.toText(Get(m, "amount"))))
    case "spotSend" =>
      if !Get(m, "destination").Str? || !Get(m, "token").Str? || Get(m, "amount").Undefined? then None
      else Some(SpotSend(Get(m, "destination").s, Get(m, "token").s, t.toText(Get(m, "amount"))))
    case "usdClassTransfer" =>
      if Get(m, "amount").Undefined? then None
      else Some(UsdClassTransfer(t.toText(Get(m, "amount")), IsTrue(Get(m, "toPerp"))))
    case "sendAsset" =>
      if !Get(m, "destination").Str? || Get(m, "amount").Undefined? then None
      else Some(SendAsset(Get(m, "destination").s, StrOr(Get(m, "sourceDex")), StrOr(Get(m, "destinationDex")),
                          StrOr(Get(m, "token")), t.toText(Get(m, "amount"))))
    case "sendToEvmWithData" =>
      if !Get(m, "destinationRecipient").Str? || Get(m, "amount").Undefined? then None
      else Some(SendToEvmWithData(StrOr(Get(m, "token")), t.toText(Get(m, "amount")), StrOr(Get(m, "sourceDex")),
                                  Get(m, "destinationRecipient").s, StrOr(Get(m, "data"))))
    case "cDeposit" => if Get(m, "wei").Undefined? then None else Some(CDeposit(t.toText(Get(m, "wei"))))
    case "cWithdraw" => if Get(m, "wei").Undefined? then None else Some(CWithdraw(t.toText(Get(m, "wei"))))
    case "vaultTransfer" =>
      if !Get(m, "vaultAddress").Str? || Get(m, "usd").Undefined? then None
      else Some(VaultTransfer(Get(m, "vaultAddress").s, IsTrue(Get(m, "isDeposit")), t.toText(Get(m, "usd"))))
    case "subAccountTransfer" =>
      if !Get(m, "subAccountUser").Str? || Get(m, "usd").Undefined? then None
      else Some(SubAccountTransfer(Get(m, "subAccountUser").s, IsTrue(Get(m, "isDeposit")), t.toText(Get(m, "usd"))))
    case "tokenDelegate" =>
      if !Get(m, "validator").Str? || Get(m, "wei").Undefined? then None
      else Some(TokenDelegate(Get(m, "validator").s, IsTrue(Get(m, "isUndelegate")), t.toText(Get(m, "wei"))))
    case "twapOrder" =>
      var twap := Get(m, "twap");
      if !twap.Obj? || !Get(twap.members, "a").Num? || !Get(twap.members, "b").Bool? then None
      else
        var w := twap.members;
        Some(TwapOrder(Get(w, "a").n, Get(w, "b").b, t.toText(OrEmpty(Get(w, "s"))), IsTrue(Get(w, "r")),
                       Minutes(t, Get(w, "m")), IsTrue(Get(w, "t"))))
    case "updateIsolatedMargin" =>
      if !Get(m, "asset").Num? || Get(m, "ntli").Undefined? then None
      else Some(UpdateIsolatedMargin(Get(m, "asset").n, IsTrue(Get(m, "isBuy")), t.toText(Get(m, "ntli"))))
    case _ => None
  }

  function Minutes(t: Text, v: Json): real {
    if v.Num? then v.n else t.toNumber(if v.Undefined? || v.Null? then Num(0.0) else v)
  }

  // ---- the parser ----

  /** The action of a well-formed request, with its type. */
  function ActionOf(body: Json): Option<(string, List<Member>)> {
    if !body.Obj? || !Get(body.members, "action").Obj? then None
    else
      var action := Get(body.members, "action").members;
      if Get(action, "type").Str? then Some((Get(action, "type").s, action)) else None
  }

  function EnvelopeOf(venue: string, endpoint: string, hostname: string, root: List<Member>): Envelope {
    var nonce, vault := Get(root, "nonce"), Get(root, "vaultAddress");
    Envelope(venue, endpoint, hostname, if nonce.Num? then Some(nonce.n) else None,
             if vault.Str? && |vault.s| > 0 then Some(vault.s) else None)
  }

  method ParseHyperliquidExchangeOrders(t: Text, venue: string, endpoint: string, hostname: string, body: Json)
    returns (r: Option<seq<Payload>>)
    ensures r == Parsed(t, venue, endpoint, hostname, body)
  {
    if !body.Obj? { return None; }
    var action := Get(body.members, "action");
    if !action.Obj? || !Get(action.members, "type").Str? { return None; }
    var actionType := Get(action.members, "type").s;
    var e := EnvelopeOf(venue, endpoint, hostname, body.members);
    if actionType == "order" {
      var payloads := ParseOrders(t, e, Get(action.members, "orders"));
      return Some(payloads);
    } else if actionType == "modify" || actionType == "batchModify" {
      r := ParseModify(t, e, action.members);
    } else if actionType in MODELED {
      var wire := SingleWire(t, actionType, action.members);
      return Some([Payload(e, if wire.Some? then wire.value else Unknown(actionType))]);
    } else if actionType in BENIGN {
      return None;
    } else {
      return Some([Marker(e, actionType)]);
    }
  }

  /** What the parser makes of a body. */
  function Parsed(t: Text, venue: string, endpoint: string, hostname: string, body: Json): Option<seq<Payload>> {
    match ActionOf(body)
    case None => None
    case Some((kind, action)) =>
      var e := EnvelopeOf(venue, endpoint, hostname, body.members);
      if kind == "order" then Some(OrderSpec(t, e, Get(action, "orders")))
      else if kind == "modify" || kind == "batchModify" then ModifySpec(t, e, action)
      else if kind in MODELED then
        Some([Payload(e, match SingleWire(t, kind, action) case Some(w) => w case None => Unknown(kind))])
      else if kind in BENIGN then None
      else Some([Marker(e, kind)])
  }

  // ---- what it guarantees ----

  /** Types that place or replace orders, or move funds, are not in the list of harmless ones. */
  lemma GuardedIsNotBenign(kind: string)
    requires kind == "order" || kind == "modify" || kind == "batchModify" || kind in MODELED
    ensures kind !in BENIGN
  {
  }

  lemma OrdersAreNotModeled()
    ensures "order" !in MODELED && "modify" !in MODELED && "batchModify" !in MODELED
  {
  }

  /**
   A request goes unguarded exactly when its envelope is malformed, its type is listed
   as harmless, or it is a modify that carries no valid order.
   */
  lemma UnguardedExactly(t: Text, venue: string, endpoint: string, hostname: string, body: Json)
    ensures
      Parsed(t, venue, endpoint, hostname, body).None? <==>
      match ActionOf(body)
      case None => true
      case Some((kind, action)) =>
        || kind in {"cancel", "cancelByCloid", "twapCancel", "scheduleCancel", "noop", "reserveRequestWeight",
                    "setReferrer", "createSubAccount", "subAccountModify", "vaultModify", "spotUser", "evmUserModify"}
        || ((kind == "modify" || kind == "batchModify") &&
            forall i :: 0 <= i < |ModifyLegs(action)| ==> !ValidLeg(ModifyLegs(action)[i]))
  {
    match ActionOf(body)
    case None =>
    case Some((kind, action)) =>
      hide BENIGN, MODELED, SingleWire;
      OrdersAreNotModeled();
      if kind == "order" || kind == "modify" || kind == "batchModify" || kind in MODELED { GuardedIsNotBenign(kind); }
      if kind == "modify" || kind == "batchModify" {
        var legs := ModifyLegs(action);
        NoValidLegs(t, EnvelopeOf(venue, endpoint, hostname, body.members), legs, |legs|);
      }
  }

  lemma LegIsShownWhenValid(t: Text, e: Envelope, leg: Json)
    ensures LegPayload(t, e, leg) != [] <==> ValidLeg(leg)
  {}

  lemma {:induction false} NoValidLegs(t: Text, e: Envelope, legs: seq<Json>, n: nat)
    requires n <= |legs|
    ensures OrderPayloads(t, e, legs, n) == [] <==> forall i :: 0 <= i < n ==> !ValidLeg(legs[i])
  {
    hide ValidLeg, OrderWireFrom;
    if n > 0 {
      NoValidLegs(t, e, legs, n - 1);
      LegIsShownWhenValid(t, e, legs[n - 1]);
    }
  }

  /** How many of the first `n` legs are valid. */
  function ValidCount(legs: seq<Json>, n: nat): nat
    requires n <= |legs|
  {
    if n == 0 then 0 else ValidCount(legs, n - 1) + if ValidLeg(legs[n - 1]) then 1 else 0
  }

  lemma {:induction false} PayloadOfLeg(t: Text, e: Envelope, legs: seq<Json>, n: nat, i: nat)
    requires i < n <= |legs|
    ensures |OrderPayloads(t, e, legs, n)| == ValidCount(legs, n)
    ensures ValidLeg(legs[i]) ==>
              && ValidCount(legs, i) < ValidCount(legs, n)
              && OrderPayloads(t, e, legs, n)[ValidCount(legs, i)] == Payload(e, Order(OrderWireFrom(t, legs[i]).value))
  {
    if n > 1 { PayloadOfLeg(t, e, legs, n - 1, if i < n - 1 then i else 0); }
  }

  // ---- what is shown is what was sent ----

  /** `String(v ?? "")` */
  function TextSent(t: Text, v: Json): string {
    match v
    case Undefined => t.toText(Str(""))
    case Null => t.toText(Str(""))
    case _ => t.toText(v)
  }

  /** The wire says what the leg's own members say. */
  predicate LegSentAs(t: Text, leg: Json, w: OrderWire) {
    && leg.Obj?
    && Get(leg.members, "a") == Num(w.a) && Get(leg.members, "b") == Bool(w.b)
    && TextSent(t, Get(leg.members, "p")) == w.p && TextSent(t, Get(leg.members, "s")) == w.s
    && (Get(leg.members, "r") == Bool(true) <==> w.r)
    && Get(leg.members, "t") == w.t
    && match w.c case Some(c) => Get(leg.members, "c") == Str(c) case None => !Get(leg.members, "c").Str?
  }

  lemma LegIsSent(t: Text, leg: Json)
    requires ValidLeg(leg)
    ensures OrderWireFrom(t, leg).Some? && LegSentAs(t, leg, OrderWireFrom(t, leg).value)
  {
    hide Get;
  }

  /** A leg is valid exactly when there is an order that says what the leg says. */
  lemma ValidLegExactly(t: Text, leg: Json)
    ensures ValidLeg(leg) <==> exists w :: LegSentAs(t, leg, w)
  {
    hide Get;
    if ValidLeg(leg) { LegIsSent(t, leg); }
  }

  /** A sequence made of a JSON array holds its items in their order. */
  lemma {:induction false} ToSeqKeepsOrder(items: List<Json>)
    ensures ListFrom(ToSeq(items), 0) == items
  {
    if items.Cons? {
      ToSeqKeepsOrder(items.tail);
      ListFromSecond(ToSeq(items.tail), items.head, 0);
    }
  }

  function LegsOf(orders: Json): seq<Json> { if orders.Arr? then ToSeq(orders.items) else [] }

  lemma {:induction false} CountOfPayloads(t: Text, e: Envelope, legs: seq<Json>, n: nat)
    requires n <= |legs|
    ensures |OrderPayloads(t, e, legs, n)| == ValidCount(legs, n)
  {
    if n > 0 { PayloadOfLeg(t, e, legs, n, 0); }
  }

  /**
   No order leg is dropped and none is added: each valid leg has its payload in its
   place, and the rest is one marker exactly when some leg is invalid or there is none,
   be it that `orders` is empty or no array.
   */
  lemma EveryLegIsGuarded(t: Text, e: Envelope, orders: Json)
    ensures
      var legs, payloads := LegsOf(orders), OrderSpec(t, e, orders);
      var valid := ValidCount(legs, |legs|);
      var marked := legs == [] || exists k :: 0 <= k < |legs| && !ValidLeg(legs[k]);
      && |payloads| == valid + (if marked then 1 else 0)
      && (forall i :: 0 <= i < |legs| && ValidLeg(legs[i]) ==>
            && ValidCount(legs, i) < valid
            && var shown := payloads[ValidCount(legs, i)];
            shown.envelope == e && shown.wire.Order? && LegSentAs(t, legs[i], shown.wire.order))
      && (marked ==> payloads[valid] == Marker(e, "order"))
  {
    var legs := LegsOf(orders);
    CountOfPayloads(t, e, legs, |legs|);
    forall i | 0 <= i < |legs| && ValidLeg(legs[i])
      ensures ValidCount(legs, i) < ValidCount(legs, |legs|)
      ensures
        var shown := OrderPayloads(t, e, legs, |legs|)[ValidCount(legs, i)];
        shown.envelope == e && shown.wire.Order? && LegSentAs(t, legs[i], shown.wire.order)
    {
      PayloadOfLeg(t, e, legs, |legs|, i);
      LegIsSent(t, legs[i]);
    }
  }

  lemma {:induction false} CountOfValid(legs: seq<Json>, n: nat)
    requires n <= |legs|
    ensures ValidCount(legs, n) <= n
    ensures ValidCount(legs, n) == n <==> forall i :: 0 <= i < n ==> ValidLeg(legs[i])
  {
    hide ValidLeg;
    if n > 0 { CountOfValid(legs, n - 1); }
  }

  lemma {:induction false} OnlyOrders(t: Text, e: Envelope, legs: seq<Json>, n: nat)
    requires n <= |legs|
    ensures forall p :: p in OrderPayloads(t, e, legs, n) ==> p.wire.Order?
  {
    if n > 0 { OnlyOrders(t, e, legs, n - 1); }
  }

  /**
   Of a modify the valid legs are shown, each in its place, and nothing else: an invalid
   leg leaves no marker.  So all legs are shown exactly when all are valid.
   */
  lemma ModifyShowsValidLegs(t: Text, e: Envelope, action: List<Member>)
    ensures
      var legs, r := ModifyLegs(action), ModifySpec(t, e, action);
      var valid := ValidCount(legs, |legs|);
      && (r.None? <==> valid == 0)
      && (r.Some? ==>
            && |r.value| == valid && (forall p :: p in r.value ==> p.wire.Order?)
            && (|r.value| == |legs| <==> forall i :: 0 <= i < |legs| ==> ValidLeg(legs[i]))
            && (forall i :: 0 <= i < |legs| && ValidLeg(legs[i]) ==>
                  && ValidCount(legs, i) < valid
                  && var shown := r.value[ValidCount(legs, i)];
                  shown.envelope == e && shown.wire.Order? && LegSentAs(t, legs[i], shown.wire.order)))
  {
    var legs := ModifyLegs(action);
    CountOfPayloads(t, e, legs, |legs|);
    CountOfValid(legs, |legs|);
    OnlyOrders(t, e, legs, |legs|);
    forall i | 0 <= i < |legs| && ValidLeg(legs[i])
      ensures ValidCount(legs, i) < ValidCount(legs, |legs|)
      ensures
        var shown := OrderPayloads(t, e, legs, |legs|)[ValidCount(legs, i)];
        shown.envelope == e && shown.wire.Order? && LegSentAs(t, legs[i], shown.wire.order)
    {
      PayloadOfLeg(t, e, legs, |legs|, i);
      LegIsSent(t, legs[i]);
    }
  }

  lemma {:induction false} OrdersInOrder(edits: List<Json>, i: nat)
    requires i < |ToSeq(edits)|
    ensures |OrdersOf(edits)| == |ToSeq(edits)|
    ensures OrdersOf(edits)[i] == match ToSeq(edits)[i] case Obj(m) => Get(m, "order") case _ => Undefined
  {
    if i > 0 {
      OrdersInOrder(edits.tail, i - 1);
    } else {
      SameLength(edits);
    }
  }

  lemma {:induction false} SameLength(edits: List<Json>)
    ensures |OrdersOf(edits)| == |ToSeq(edits)|
  {
    if edits.Cons? { SameLength(edits.tail); }
  }

  /** The legs of a modify: the `order` of each of its `modifies`, or else its own. */
  lemma ModifyLegsExactly(action: List<Member>)
    ensures
      match Get(action, "modifies")
      case Arr(edits) =>
        && |ModifyLegs(action)| == |ToSeq(edits)|
        && forall i :: 0 <= i < |ToSeq(edits)| ==>
             ModifyLegs(action)[i] == (match ToSeq(edits)[i] case Obj(m) => Get(m, "order") case _ => Undefined)
      case _ => ModifyLegs(action) == [Get(action, "order")]
  {
    match Get(action, "modifies")
    case Arr(edits) =>
      SameLength(edits);
      forall i | 0 <= i < |ToSeq(edits)|
        ensures OrdersOf(edits)[i] == (match ToSeq(edits)[i] case Obj(m) => Get(m, "order") case _ => Undefined)
      {
        OrdersInOrder(edits, i);
      }
    case _ =>
  }

  const GOOD_LEG: Json := Obj(Cons(Member("a", Num(0.0)), Cons(Member("b", Bool(true)), Nil)))

  const BAD_LEG: Json := Obj(Nil)

  function Edit(order: Json): Json { Obj(Cons(Member("order", order), Nil)) }

  const MIXED_MODIFY: List<Member> :=
    Cons(Member("type", Str("batchModify")),
    Cons(Member("modifies", Arr(Cons(Edit(GOOD_LEG), Cons(Edit(BAD_LEG), Nil)))), Nil))

  /** A batch of one valid and one invalid edit: the second is passed on, and the policies never hear of it. */
  lemma InvalidModifyLegIsNotShown(t: Text, e: Envelope)
    ensures ModifyLegs(MIXED_MODIFY) == [GOOD_LEG, BAD_LEG] && ValidLeg(GOOD_LEG) && !ValidLeg(BAD_LEG)
    ensures ModifySpec(t, e, MIXED_MODIFY) == Some([Payload(e, Order(OrderWireFrom(t, GOOD_LEG).value))])
  {
    var one := Cons(Edit(BAD_LEG), Nil);
    var edits := Cons(Edit(GOOD_LEG), one);
    assert "type" != "modifies" by { assert |"type"| != |"modifies"|; }
    assert Get(MIXED_MODIFY, "modifies") == Get(MIXED_MODIFY.tail, "modifies") == Arr(edits);
    assert OrdersOf(Nil) == [] && OrdersOf(one) == [BAD_LEG];
    assert OrdersOf(edits) == [GOOD_LEG, BAD_LEG];
    assert "a"[0] != "b"[0];
    assert Get(GOOD_LEG.members, "a") == Num(0.0) && Get(GOOD_LEG.members, "b") == Bool(true);
    var legs := [GOOD_LEG, BAD_LEG];
    assert OrderPayloads(t, e, legs, 0) == [];
    assert OrderPayloads(t, e, legs, 1) == LegPayload(t, e, GOOD_LEG);
    assert OrderPayloads(t, e, legs, 2) == LegPayload(t, e, GOOD_LEG);
  }

  /** Who receives, for the actions that send something to somebody. */
  function RecipientOf(w: Wire): Option<string> {
    match w
    case Withdraw(d, _) => Some(d)
    case UsdSend(d, _) => Some(d)
    case SpotSend(d, _, _) => Some(d)
    case SendAsset(d, _, _, _, _) => Some(d)
    case SendToEvmWithData(_, _, _, d, _) => Some(d)
    case VaultTransfer(d, _, _) => Some(d)
    case SubAccountTransfer(d, _, _) => Some(d)
    case TokenDelegate(d, _, _) => Some(d)
    case _ => None
  }

  function AmountOf(w: Wire): Option<string> {
    match w
    case Withdraw(_, a) => Some(a)
    case UsdSend(_, a) => Some(a)
    case SpotSend(_, _, a) => Some(a)
    case UsdClassTransfer(a, _) => Some(a)
    case SendAsset(_, _, _, _, a) => Some(a)
    case SendToEvmWithData(_, a, _, _, _) => Some(a)
    case CDeposit(a) => Some(a)
    case CWithdraw(a) => Some(a)
    case VaultTransfer(_, _, a) => Some(a)
    case SubAccountTransfer(_, _, a) => Some(a)
    case TokenDelegate(_, _, a) => Some(a)
    case UpdateIsolatedMargin(_, _, a) => Some(a)
    case _ => None
  }

  /** The fields a request names its recipient and amount by, per action type. */
  function RecipientField(kind: string): Option<string> {
    match kind
    case "withdraw3" => Some("destination")
    case "usdSend" => Some("destination")
    case "spotSend" => Some("destination")
    case "sendAsset" => Some("destination")
    case "sendToEvmWithData" => Some("destinationRecipient")
    case "vaultTransfer" => Some("vaultAddress")
    case "subAccountTransfer" => Some("subAccountUser")
    case "tokenDelegate" => Some("validator")
    case _ => None
  }

  function AmountField(kind: string): Option<string> {
    match kind
    case "updateLeverage" => None
    case "twapOrder" => None
    case "cDeposit" => Some("wei")
    case "cWithdraw" => Some("wei")
    case "tokenDelegate" => Some("wei")
    case "vaultTransfer" => Some("usd")
    case "subAccountTransfer" => Some("usd")
    case "updateIsolatedMargin" => Some("ntli")
    case _ => Some("amount")
  }

  /** The policies see the recipient that the request carries. */
  lemma RecipientIsShownAsSent(t: Text, kind: string, m: List<Member>)
    requires SingleWire(t, kind, m).Some?
    ensures RecipientOf(SingleWire(t, kind, m).value) ==
            match RecipientField(kind) case None => None case Some(field) => Some(Get(m, field).s)
  {
    hide Get;
  }

  /** The policies see the amount that the request carries. */
  lemma AmountIsShownAsSent(t: Text, kind: string, m: List<Member>)
    requires SingleWire(t, kind, m).Some?
    ensures AmountOf(SingleWire(t, kind, m).value) ==
            match AmountField(kind) case None => None case Some(field) => Some(t.toText(Get(m, field)))
  {
    hide Get;
  }

  /** The fields without which an action of this type is not understood. */
  predicate Understood(kind: string, m: List<Member>) {
    && (RecipientField(kind).Some? ==> Get(m, RecipientField(kind).value).Str?)
    && (AmountField(kind).Some? ==> !Get(m, AmountField(kind).value).Undefined?)
    && (kind == "spotSend" ==> Get(m, "token").Str?)
    && (kind == "updateIsolatedMargin" ==> Get(m, "asset").Num?)
    && (kind == "updateLeverage" ==> Get(m, "asset").Num? && Get(m, "isCross").Bool? && Get(m, "leverage").Num?)
    && (kind == "twapOrder" ==> ValidLeg(Get(m, "twap")))
  }

  lemma UnderstoodExactly(t: Text, kind: string, m: List<Member>)
    requires kind in MODELED
    ensures SingleWire(t, kind, m).Some? <==> Understood(kind, m)
    ensures SingleWire(t, kind, m).Some? ==> !SingleWire(t, kind, m).value.Unknown?
  {
    hide Get;
  }

  /** The wire of a single action says what the action's own members say. */
  predicate SentAs(t: Text, kind: string, m: List<Member>, w: Wire) {
    match w
    case UpdateLeverage(asset, cross, leverage) =>
      && kind == "updateLeverage" && Get(m, "asset") == Num(asset) && Get(m, "isCross") == Bool(cross)
      && Get(m, "leverage") == Num(leverage)
    case Withdraw(to, amount) =>
      kind == "withdraw3" && Get(m, "destination") == Str(to) && t.toText(Get(m, "amount")) == amount
    case UsdSend(to, amount) =>
      kind == "usdSend" && Get(m, "destination") == Str(to) && t.toText(Get(m, "amount")) == amount
    case SpotSend(to, token, amount) =>
      && kind == "spotSend" && Get(m, "destination") == Str(to) && Get(m, "token") == Str(token)
      && t.toText(Get(m, "amount")) == amount
    case UsdClassTransfer(amount, toPerp) =>
      kind == "usdClassTransfer" && t.toText(Get(m, "amount")) == amount && (Get(m, "toPerp") == Bool(true) <==> toPerp)
    case SendAsset(to, from, dex, token, amount) =>
      && kind == "sendAsset" && Get(m, "destination") == Str(to) && t.toText(Get(m, "amount")) == amount
      && NamedAs(Get(m, "sourceDex"), from) && NamedAs(Get(m, "destinationDex"), dex) && NamedAs(Get(m, "token"), token)
    case SendToEvmWithData(token, amount, from, to, data) =>
      && kind == "sendToEvmWithData" && Get(m, "destinationRecipient") == Str(to)
      && t.toText(Get(m, "amount")) == amount
      && NamedAs(Get(m, "token"), token) && NamedAs(Get(m, "sourceDex"), from) && NamedAs(Get(m, "data"), data)
    case CDeposit(wei) => kind == "cDeposit" && t.toText(Get(m, "wei")) == wei
    case CWithdraw(wei) => kind == "cWithdraw" && t.toText(Get(m, "wei")) == wei
    case VaultTransfer(vault, deposit, usd) =>
      && kind == "vaultTransfer" && Get(m, "vaultAddress") == Str(vault) && t.toText(Get(m, "usd")) == usd
      && (Get(m, "isDeposit") == Bool(true) <==> deposit)
    case SubAccountTransfer(user, deposit, usd) =>
      && kind == "subAccountTransfer" && Get(m, "subAccountUser") == Str(user) && t.toText(Get(m, "usd")) == usd
      && (Get(m, "isDeposit") == Bool(true) <==> deposit)
    case TokenDelegate(validator, undelegate, wei) =>
      && kind == "tokenDelegate" && Get(m, "validator") == Str(validator) && t.toText(Get(m, "wei")) == wei
      && (Get(m, "isUndelegate") == Bool(true) <==> undelegate)
    case TwapOrder(asset, buy, size, reduceOnly, minutes, randomize) =>
      && kind == "twapOrder" && Get(m, "twap").Obj?
      && var twap := Get(m, "twap").members;
      && Get(twap, "a") == Num(asset) && Get(twap, "b") == Bool(buy) && TextSent(t, Get(twap, "s")) == size
      && (Get(twap, "r") == Bool(true) <==> reduceOnly) && (Get(twap, "t") == Bool(true) <==> randomize)
      && minutes == (match Get(twap, "m")
                     case Num(n) => n
                     case Undefined => t.toNumber(Num(0.0))
                     case Null => t.toNumber(Num(0.0))
                     case v => t.toNumber(v))
    case UpdateIsolatedMargin(asset, buy, ntli) =>
      && kind == "updateIsolatedMargin" && Get(m, "asset") == Num(asset) && t.toText(Get(m, "ntli")) == ntli
      && (Get(m, "isBuy") == Bool(true) <==> buy)
    case Order(_) => false
    case Unknown(_) => false
  }

  /** A name that counts as empty where it is no string. */
  predicate NamedAs(v: Json, name: string) { v == Str(name) || (!v.Str? && name == "") }

  lemma WireIsSent(t: Text, kind: string, m: List<Member>)
    requires SingleWire(t, kind, m).Some?
    ensures SentAs(t, kind, m, SingleWire(t, kind, m).value)
  {
    if RecipientField(kind).Some? {
      TransferIsSent(t, kind, m);
    } else {
      hide Get, NamedAs, StrOr;
    }
  }

  lemma TransferIsSent(t: Text, kind: string, m: List<Member>)
    requires SingleWire(t, kind, m).Some? && RecipientField(kind).Some?
    ensures SentAs(t, kind, m, SingleWire(t, kind, m).value)
  {
    hide Get, OrEmpty, TextSent, Minutes;
  }

  /** Where the request goes and on whose behalf, as its root says. */
  predicate EnvelopeSentAs(root: List<Member>, e: Envelope) {
    && (match e.nonce case Some(n) => Get(root, "nonce") == Num(n) case None => !Get(root, "nonce").Num?)
    && match e.vaultAddress
       case Some(v) => Get(root, "vaultAddress") == Str(v) && v != ""
       case None => Get(root, "vaultAddress").Str? ==> Get(root, "vaultAddress").s == ""
  }

  lemma EnvelopeIsSent(venue: string, endpoint: string, hostname: string, root: List<Member>)
    ensures
      var e := EnvelopeOf(venue, endpoint, hostname, root);
      e.venue == venue && e.endpoint == endpoint && e.hostname == hostname && EnvelopeSentAs(root, e)
  {
    hide Get;
  }

  /** The types of single actions that are understood. */
  predicate SingleAction(kind: string) {
    || RecipientField(kind).Some?
    || kind == "usdClassTransfer" || kind == "cDeposit" || kind == "cWithdraw" || kind == "updateIsolatedMargin"
    || kind == "updateLeverage" || kind == "twapOrder"
  }

  lemma SingleActionsAreModeled(kind: string)
    ensures SingleAction(kind) <==> kind in MODELED
  {
  }

  /**
   A whole request of one of these types is put to the policies as one payload on behalf
   of whoever makes it.  It says what the request says, field by field, or, exactly when
   a field is missing, that the action was not understood.
   */
  lemma RequestIsShownAsSent(t: Text, venue: string, endpoint: string, hostname: string, body: Json)
    requires ActionOf(body).Some? && SingleAction(ActionOf(body).value.0)
    ensures
      var (kind, m) := ActionOf(body).value;
      var r := Parsed(t, venue, endpoint, hostname, body);
      && r.Some? && |r.value| == 1
      && var e, w := r.value[0].envelope, r.value[0].wire;
      && e.venue == venue && e.endpoint == endpoint && e.hostname == hostname && EnvelopeSentAs(body.members, e)
      && (w.Unknown? <==> !Understood(kind, m))
      && (w.Unknown? ==> w.actionType == kind)
      && (!w.Unknown? ==>
            && SentAs(t, kind, m, w)
            && RecipientOf(w) == (match RecipientField(kind) case None => None case Some(f) => Some(Get(m, f).s))
            && AmountOf(w) == (match AmountField(kind) case None => None case Some(f) => Some(t.toText(Get(m, f)))))
  {
    hide SingleWire, Understood, Get, MODELED, BENIGN, RecipientOf, AmountOf, RecipientField, AmountField, SentAs;
    hide SingleAction, EnvelopeOf, EnvelopeSentAs;
    var (kind, m) := ActionOf(body).value;
    SingleActionsAreModeled(kind);
    OrdersAreNotModeled();
    UnderstoodExactly(t, kind, m);
    EnvelopeIsSent(venue, endpoint, hostname, body.members);
    if SingleWire(t, kind, m).Some? {
      WireIsSent(t, kind, m);
      RecipientIsShownAsSent(t, kind, m);
      AmountIsShownAsSent(t, kind, m);
    }
  }

  /** A request that is not understood at all is put to the policies under its own type. */
  lemma UnknownTypeIsShown(t: Text, venue: string, endpoint: string, hostname: string, body: Json)
    requires ActionOf(body).Some? && Parsed(t, venue, endpoint, hostname, body).Some?
    requires
      var kind := ActionOf(body).value.0;
      !SingleAction(kind) && kind != "order" && kind != "modify" && kind != "batchModify"
    ensures
      var r := Parsed(t, venue, endpoint, hostname, body).value;
      && |r| == 1 && r[0].wire == Unknown(ActionOf(body).value.0)
      && EnvelopeSentAs(body.members, r[0].envelope)
  {
    hide SingleWire, Get, MODELED, BENIGN, SingleAction, EnvelopeOf, EnvelopeSentAs;
    SingleActionsAreModeled(ActionOf(body).value.0);
    EnvelopeIsSent(venue, endpoint, hostname, body.members);
  }

  // ---- the decision ----

  datatype Decision = PassThrough | Allow(payloads: seq<Payload>) | DenyUnreadable | DenyPolicy(payloads: seq<Payload>)

  /** Put every payload to the policies; one refusal is enough. */
  method EvaluatePayloads(payloads: seq<Payload>, approve: Payload -> bool) returns (ok: bool)
    ensures ok <==> forall i :: 0 <= i < |payloads| ==> approve(payloads[i])
  {
    var i := 0;
    while i < |payloads|
      invariant 0 <= i <= |payloads|
      invariant forall j :: 0 <= j < i ==> approve(payloads[j])
    {
      if !approve(payloads[i]) { return false; }
      i := i + 1;
    }
    return true;
  }

  /**
   A body that cannot be read is denied; one that parses to nothing passes through; any
   other is allowed exactly when every payload, markers included, is approved.
   */
  method DecideVenueBody(t: Text, venue: string, endpoint: string, hostname: string, body: Option<string>,
                         approve: Payload -> bool)
    returns (d: Decision)
    ensures d.DenyUnreadable? <==> body.None?
    ensures body.Some? ==>
      var parsed := match t.parse(body.value) case None => None case Some(v) => Parsed(t, venue, endpoint, hostname, v);
      && (d.PassThrough? <==> parsed.None?)
      && (d.Allow? <==> parsed.Some? && forall i :: 0 <= i < |parsed.value| ==> approve(parsed.value[i]))
      && (d.Allow? || d.DenyPolicy? ==> d.payloads == parsed.value)
  {
    if body.None? { return DenyUnreadable; }
    var v := t.parse(body.value);
    if v.None? { return PassThrough; }
    var payloads := ParseHyperliquidExchangeOrders(t, venue, endpoint, hostname, v.value);
    if payloads.None? { return PassThrough; }
    var allowed := EvaluatePayloads(payloads.value, approve);
    return if allowed then Allow(payloads.value) else DenyPolicy(payloads.value);
  }
}
