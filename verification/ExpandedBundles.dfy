/**
 What the two expansions of a sourced manifest make of it, said of the bundles that
 come out: the id, the match, and what every other member is.
 */
module ExpandedBundles {
  import opened Jsons
  import opened Options
  import opened SourceBundles

  // ---- placeholders ----

  lemma {:induction false} ItemAtExactly(items: List<Json>, i: int)
    ensures ItemAt(items, i) == if 0 <= i < Length(items) then Nth(items, i) else Undefined
  {
    if items.Cons? && i > 0 { ItemAtExactly(items.tail, i - 1); }
  }

  lemma {:induction false} EachItem(t: Text, items: List<Json>, context: Json, i: nat)
    requires SubstItems(t, items, context).Some? && i < Length(items)
    ensures
      var r := SubstItems(t, items, context).value;
      Length(r) == Length(items) && Subst(t, Nth(items, i), context) == Some(Nth(r, i))
  {
    hide Subst;
    if items.tail.Cons? { EachItem(t, items.tail, context, if i > 0 then i - 1 else 0); }
  }

  lemma {:induction false} UndefinableItem(t: Text, items: List<Json>, context: Json) returns (i: nat)
    requires SubstItems(t, items, context).None?
    ensures i < Length(items) && Subst(t, Nth(items, i), context).None?
  {
    hide Subst;
    if Subst(t, items.head, context).None? {
      i := 0;
    } else {
      i := UndefinableItem(t, items.tail, context);
      i := i + 1;
    }
  }

  lemma ItemsExactly(t: Text, items: List<Json>, context: Json)
    ensures SubstItems(t, items, context).Some? <==>
            forall i :: 0 <= i < Length(items) ==> Subst(t, Nth(items, i), context).Some?
    ensures SubstItems(t, items, context).Some? ==>
              var r := SubstItems(t, items, context).value;
              Length(r) == Length(items) &&
              forall i :: 0 <= i < Length(items) ==> Subst(t, Nth(items, i), context) == Some(Nth(r, i))
  {
    hide Subst, Nth, SubstItems;
    if SubstItems(t, items, context).Some? {
      var r := SubstItems(t, items, context).value;
      if items.Cons? { EachItem(t, items, context, 0); } else { NoItems(t, context); }
      forall i | 0 <= i < Length(items)
        ensures Subst(t, Nth(items, i), context) == Some(Nth(r, i))
      {
        EachItem(t, items, context, i);
      }
    } else {
      var i := UndefinableItem(t, items, context);
    }
  }

  lemma NoItems(t: Text, context: Json)
    ensures SubstItems(t, Nil, context) == Some(Nil)
  {}

  lemma MembersExactly(t: Text, ms: List<Member>, context: Json)
    requires ProperMembers(ms)
    ensures SubstMembers(t, ms, context).Some? <==> forall k :: Has(ms, k) ==> Subst(t, Get(ms, k), context).Some?
    ensures SubstMembers(t, ms, context).Some? ==> Substituted(t, ms, context, SubstMembers(t, ms, context).value)
  {
    hide Subst, SubstMembers;
    if SubstMembers(t, ms, context).Some? {
      var r := SubstMembers(t, ms, context).value;
      forall k
        ensures Has(r, k) == Has(ms, k)
        ensures Has(ms, k) ==> Subst(t, Get(ms, k), context) == Some(Get(r, k))
      {
        SubstKeepsKeys(t, ms, context, k);
      }
    } else {
      var k := Undefinable(t, ms, context);
    }
  }

  lemma {:induction false} Undefinable(t: Text, ms: List<Member>, context: Json) returns (k: string)
    requires ProperMembers(ms) && SubstMembers(t, ms, context).None?
    ensures Has(ms, k) && Subst(t, Get(ms, k), context).None?
  {
    hide Subst;
    if Subst(t, ms.head.value, context).None? {
      k := ms.head.key;
    } else {
      k := Undefinable(t, ms.tail, context);
    }
  }

  /** The same names, each with its value substituted. */
  ghost predicate Substituted(t: Text, ms: List<Member>, context: Json, r: List<Member>) {
    forall k :: Has(r, k) == Has(ms, k) && (Has(ms, k) ==> Subst(t, Get(ms, k), context) == Some(Get(r, k)))
  }

  function Found(v: Json): Option<Json> { if v.Undefined? then None else Some(v) }

  /**
   A string with the prefix stands for what its path leads to in the context, and it is
   an error when that is nothing.  Arrays and objects are substituted part by part, and
   everything else stays.
   */
  lemma SubstExactly(t: Text, v: Json, context: Json)
    requires Proper(v)
    ensures
      var r := Subst(t, v, context);
      match v
      case Str(_) => r == (if "$source." <= v.s then Found(LookupPath(t, context, Split(v.s[8..], '.'))) else Some(v))
      case Arr(items) =>
        && (r.Some? <==> forall i :: 0 <= i < Length(items) ==> Subst(t, Nth(items, i), context).Some?)
        && (r.Some? ==>
              && r.value.Arr? && Length(r.value.items) == Length(items)
              && forall i :: 0 <= i < Length(items) ==>
                   Subst(t, Nth(items, i), context) == Some(Nth(r.value.items, i)))
      case Obj(ms) =>
        && (r.Some? <==> forall k :: Has(ms, k) ==> Subst(t, Get(ms, k), context).Some?)
        && (r.Some? ==> r.value.Obj? && Substituted(t, ms, context, r.value.members))
      case _ => r == Some(v)
  {
    match v
    case Arr(items) =>
      hide Subst;
      SubstOfArr(t, items, context);
      ItemsExactly(t, items, context);
    case Obj(ms) =>
      hide Subst;
      SubstOfObj(t, ms, context);
      MembersExactly(t, ms, context);
    case Str(_) =>
      hide LookupPath, Split;
      assert |"$source."| == 8;
    case _ =>
  }

  lemma SubstOfArr(t: Text, items: List<Json>, context: Json)
    ensures Subst(t, Arr(items), context) ==
            match SubstItems(t, items, context) case None => None case Some(r) => Some(Arr(r))
  {
    hide SubstItems;
  }

  lemma SubstOfObj(t: Text, ms: List<Member>, context: Json)
    ensures Subst(t, Obj(ms), context) ==
            match SubstMembers(t, ms, context) case None => None case Some(r) => Some(Obj(r))
  {
    hide SubstMembers;
  }

  // ---- ids ----

  /** The suffix goes before the version, which starts at the last '@', and without a version at the end. */
  predicate Suffixed(id: string, clean: string, r: string) {
    && ('@' !in id ==> r == id + "/" + clean)
    && (forall at :: 0 <= at < |id| && id[at] == '@' && '@' !in id[at + 1..] ==>
          r == id[..at] + "/" + clean + id[at..])
  }

  lemma {:induction false} LastAtIsLast(id: string)
    ensures LastAt(id) == -1 <==> '@' !in id
    ensures LastAt(id) >= 0 ==> id[LastAt(id)] == '@' && '@' !in id[LastAt(id) + 1..]
  {
    if id != [] {
      var n := |id| - 1;
      assert id == id[..n] + [id[n]];
      if id[n] != '@' {
        assert LastAt(id) == LastAt(id[..n]);
        LastAtIsLast(id[..n]);
        hide LastAt;
        if LastAt(id[..n]) >= 0 { RestOfFront(id, LastAt(id[..n]) + 1); }
      }
    }
  }

  lemma RestOfFront(s: string, k: nat)
    requires k < |s|
    ensures s[k..] == s[..|s| - 1][k..] + [s[|s| - 1]]
  {}

  lemma AppendsBeforeVersion(t: Text, id: string, suffix: string)
    ensures AppendIdSuffix(t, id, suffix).Some? <==> t.sanitize(suffix) != ""
    ensures AppendIdSuffix(t, id, suffix).Some? ==>
              Suffixed(id, t.sanitize(suffix), AppendIdSuffix(t, id, suffix).value)
  {
    hide LastAt;
    LastAtIsLast(id);
    forall at | 0 <= at < |id| && id[at] == '@' && '@' !in id[at + 1..]
      ensures at == LastAt(id)
    {
      OneIsLast(id, '@', at, LastAt(id));
    }
  }

  lemma SuffixedVersion(name: string, version: string, clean: string, r: string)
    requires Suffixed(name + "@" + version, clean, r) && '@' !in version
    ensures r == name + "/" + clean + "@" + version
  {
    var id, at := name + "@" + version, |name|;
    assert id[at] == '@' && id[at + 1..] == version;
    assert id[..at] == name && id[at..] == "@" + version;
    assert name + "/" + clean + id[at..] == name + "/" + clean + "@" + version;
  }

  // ---- what comes out ----

  /** Exactly one contract on exactly one chain, under the selector. */
  predicate MatchesOnly(t: Text, m: Json, selector: Json, chainId: int, address: string) {
    && m.Obj? && KeySet(m.members) == {"selector", "chain_to_addresses"} && Get(m.members, "selector") == selector
    && var perChain := Get(m.members, "chain_to_addresses");
    && perChain.Obj? && KeySet(perChain.members) == {t.show(chainId)}
    && Get(perChain.members, t.show(chainId)) == Arr(Cons(Str(address), Nil))
  }

  lemma MatchOfMatches(t: Text, selector: Json, chainId: int, address: string)
    ensures MatchesOnly(t, MatchOf(t, selector, chainId, address), selector, chainId, address)
  {
    var perChain := Cons(Member(t.show(chainId), Arr(Cons(Str(address), Nil))), Nil);
    assert KeySet(perChain) == {t.show(chainId)} by { assert KeySet(perChain.tail) == {}; }
    var rest := Cons(Member("chain_to_addresses", Obj(perChain)), Nil);
    assert KeySet(rest) == {"chain_to_addresses"} by { assert KeySet(rest.tail) == {}; }
    assert "selector"[0] != "chain_to_addresses"[0];
    var all := Cons(Member("selector", selector), rest);
    assert KeySet(all) == {"selector"} + KeySet(rest);
    assert Get(all, "chain_to_addresses") == Get(rest, "chain_to_addresses");
  }

  /** The bundle with the new id and match, without the materialisation marker, and otherwise substituted. */
  ghost predicate Expansion(t: Text, from: List<Member>, context: Json, id: string, selector: Json, chainId: int,
                            address: string, r: List<Member>)
  {
    && Get(r, "id") == Str(id)
    && MatchesOnly(t, Get(r, "match"), selector, chainId, address)
    && !Has(r, "source_materialize")
    && forall k :: k != "id" && k != "match" && k != "source_materialize" ==>
         && Has(r, k) == Has(from, k)
         && (Has(from, k) ==> Subst(t, Get(from, k), context) == Some(Get(r, k)))
  }

  lemma {:induction false} FinishIsExpansion(t: Text, from: List<Member>, context: Json, id: string, selector: Json,
                                             chainId: int, address: string)
    requires SubstMembers(t, from, context).Some?
    ensures Expansion(t, from, context, id, selector, chainId, address,
                      Finish(SubstMembers(t, from, context).value, id, MatchOf(t, selector, chainId, address)))
  {
    hide Subst, SubstMembers, MatchOf, Get, Has, Put, Omit, MatchesOnly;
    var substituted := SubstMembers(t, from, context).value;
    var m := MatchOf(t, selector, chainId, address);
    MatchOfMatches(t, selector, chainId, address);
    Distinct3();
    forall k
      ensures Get(Finish(substituted, id, m), k) ==
              if k == "match" then m else if k == "id" then Str(id) else if k == "source_materialize" then Undefined
              else Get(substituted, k)
      ensures Has(Finish(substituted, id, m), k) <==>
              k == "match" || k == "id" || (k != "source_materialize" && Has(substituted, k))
    {
      var bare := Omit(Omit(substituted, "match"), "source_materialize");
      GetOfOmit(substituted, "match", k);
      GetOfOmit(Omit(substituted, "match"), "source_materialize", k);
      GetOfPut(bare, "id", Str(id), k);
      GetOfPut(Put(bare, "id", Str(id)), "match", m, k);
    }
    forall k | k != "id" && k != "match" && k != "source_materialize"
      ensures Has(substituted, k) == Has(from, k)
      ensures Has(from, k) ==> Subst(t, Get(from, k), context) == Some(Get(substituted, k))
    {
      SubstKeepsKeys(t, from, context, k);
    }
  }

  lemma Distinct3()
    ensures "id" != "match" && "match" != "source_materialize" && "id" != "source_materialize"
  {
    assert |"id"| == 2 && |"match"| == 5 && |"source_materialize"| == 18;
  }

  /** The builder's context of an address: its own members, and three that take precedence. */
  lemma SourceContextExactly(t: Text, chainId: int, entry: Address, k: string)
    ensures
      var context := BuildSourceContext(t, chainId, entry);
      var suffix := if entry.idSuffix.Some? then entry.idSuffix.value else t.show(chainId) + "-" + entry.address;
      Get(context, k) ==
      match k
      case "address" => Str(entry.address)
      case "chainId" => Num(chainId as real)
      case "id_suffix" => Str(suffix)
      case _ => Get(entry.context, k)
  {
    hide Get, Put;
    var a := Put(entry.context, "address", Str(entry.address));
    var c := Put(a, "chainId", Num(chainId as real));
    GetOfPut(entry.context, "address", Str(entry.address), k);
    GetOfPut(a, "chainId", Num(chainId as real), k);
    GetOfPut(c, "id_suffix", Str(SuffixOf(t, chainId, entry)), k);
    assert |"address"| == 7 && "address"[0] != "chainId"[0] && |"id_suffix"| == 9;
  }

  /** The document stored for an address says what it is for, and holds the context. */
  lemma ContextDocumentExactly(t: Text, source: string, chainId: int, entry: Address)
    ensures
      var doc := ContextDocument(t, source, chainId, entry);
      && doc.Obj? && KeySet(doc.members) == {"schema_version", "source", "chain_id", "address", "context"}
      && Get(doc.members, "schema_version") == Str("3-source-context") && Get(doc.members, "source") == Str(source)
      && Get(doc.members, "chain_id") == Num(chainId as real)
      && Get(doc.members, "address") == Str(Lower(entry.address))
      && Get(doc.members, "context") == Obj(BuildSourceContext(t, chainId, entry))
  {
    ContextDocumentParts(t, source, chainId, entry);
    hide BuildSourceContext;
    var context := Cons(Member("context", Obj(BuildSourceContext(t, chainId, entry))), Nil);
    var address := Cons(Member("address", Str(Lower(entry.address))), context);
    var chain := Cons(Member("chain_id", Num(chainId as real)), address);
    var from := Cons(Member("source", Str(source)), chain);
    var doc := Cons(Member("schema_version", Str("3-source-context")), from);
    assert Get(doc, "source") == Str(source) by {
      assert |"source"| != |"schema_version"|;
      assert Get(from, "source") == Str(source);
    }
    KeysOfOne(context.head);
    KeysOfNext(address.head, context);
    KeysOfNext(chain.head, address);
    KeysOfNext(from.head, chain);
    KeysOfNext(doc.head, from);
  }

  lemma KeysOfOne(m: Member)
    ensures KeySet(Cons(m, Nil)) == {m.key}
  {
    assert KeySet(Nil) == {};
  }

  lemma KeysOfNext(m: Member, ms: List<Member>)
    ensures KeySet(Cons(m, ms)) == {m.key} + KeySet(ms)
  {}

  /**
   The builder's expansion exists exactly when every placeholder leads somewhere and
   something is left of the id suffix.
   */
  lemma BuiltExactly(t: Text, bundle: List<Member>, chainId: int, entry: Address)
    requires ProperMembers(bundle) && Sourced(bundle)
    ensures
      var context := Obj(BuildSourceContext(t, chainId, entry));
      var suffix := if entry.idSuffix.Some? then entry.idSuffix.value else t.show(chainId) + "-" + entry.address;
      var clean := t.sanitize(suffix);
      var r := BuildMaterialized(t, bundle, chainId, entry);
      && (r.Some? <==> clean != "" && forall k :: Has(bundle, k) ==> Subst(t, Get(bundle, k), context).Some?)
      && (r.Some? ==>
            && Subst(t, Get(bundle, "id"), context).Some?
            && var was := Subst(t, Get(bundle, "id"), context).value;
            exists id :: Suffixed(if was.Str? then was.s else t.toText(was), clean, id) &&
                         Expansion(t, bundle, context, id, Get(Get(bundle, "match").members, "selector"), chainId,
                                   entry.address, r.value))
  {
    hide Subst, SubstMembers, MatchOf, Finish, Expansion, Suffixed, AppendIdSuffix, BuildSourceContext, Get, Has;
    var context := Obj(BuildSourceContext(t, chainId, entry));
    MembersExactly(t, bundle, context);
    var r := BuildMaterialized(t, bundle, chainId, entry);
    if SubstMembers(t, bundle, context).Some? {
      SubstOfGet(t, bundle, context, "id");
      var was := Get(SubstMembers(t, bundle, context).value, "id");
      AppendsBeforeVersion(t, TextOf(t, was), SuffixOf(t, chainId, entry));
      if r.Some? {
        var id := AppendIdSuffix(t, TextOf(t, was), SuffixOf(t, chainId, entry)).value;
        FinishIsExpansion(t, bundle, context, id, SelectorOf(bundle), chainId, entry.address);
      }
    }
  }

  lemma SubstOfGet(t: Text, ms: List<Member>, context: Json, k: string)
    requires SubstMembers(t, ms, context).Some?
    ensures Subst(t, Get(ms, k), context) == Some(Get(SubstMembers(t, ms, context).value, k))
  {
    SubstKeepsKeys(t, ms, context, k);
    if !Has(ms, k) { MissingIsUndefined(ms, k); }
  }

  /**
   The proxy's expansion exists exactly when the two documents have the parts it needs,
   every placeholder leads somewhere and something is left of the id suffix.
   */
  lemma ServedExactly(t: Text, template: List<Member>, doc: List<Member>)
    requires ProperMembers(template)
    ensures
      var context, address, chain := Get(doc, "context"), Get(doc, "address"), Get(doc, "chain_id");
      var r := Materialize(t, Obj(template), Obj(doc));
      && (r.Some? <==>
            && context.Obj? && address.Str? && chain.Num? && chain.n.Floor as real == chain.n
            && Get(context.members, "id_suffix").Str? && t.sanitize(Get(context.members, "id_suffix").s) != ""
            && (forall k :: Has(template, k) ==> Subst(t, Get(template, k), context).Some?)
            && IdAndSelector(t, template, context))
      && (r.Some? ==>
            && var was := Subst(t, Get(template, "id"), context).value;
            var m := Subst(t, Get(template, "match"), context).value;
            exists id :: Suffixed(was.s, t.sanitize(Get(context.members, "id_suffix").s), id) &&
                         Expansion(t, template, context, id, Get(m.members, "selector"), chain.n.Floor,
                                   Lower(address.s), r.value))
  {
    hide Subst, SubstMembers, MatchOf, Finish, Expansion, Suffixed, AppendIdSuffix, Get, Has;
    var context, address, chain := Get(doc, "context"), Get(doc, "address"), Get(doc, "chain_id");
    MembersExactly(t, template, context);
    var r := Materialize(t, Obj(template), Obj(doc));
    if context.Obj? && SubstMembers(t, template, context).Some? {
      SubstOfGet(t, template, context, "id");
      SubstOfGet(t, template, context, "match");
      var substituted := SubstMembers(t, template, context).value;
      var was, m := Get(substituted, "id"), Get(substituted, "match");
      var suffix := Get(context.members, "id_suffix");
      if was.Str? && suffix.Str? {
        AppendsBeforeVersion(t, was.s, suffix.s);
        if r.Some? {
          var id := AppendIdSuffix(t, was.s, suffix.s).value;
          FinishIsExpansion(t, template, context, id, Get(m.members, "selector"), chain.n.Floor, Lower(address.s));
        }
      }
    }
  }

  /** After substitution there are an id and a selector, both strings. */
  predicate IdAndSelector(t: Text, template: List<Member>, context: Json) {
    match (Subst(t, Get(template, "id"), context), Subst(t, Get(template, "match"), context))
    case (Some(Str(_)), Some(Obj(m))) => Get(m, "selector").Str?
    case _ => false
  }

  /** The id of what is served: the template's with the suffix before its version. */
  lemma ServedId(t: Text, template: List<Member>, doc: List<Member>, name: string, version: string)
    requires ProperMembers(template) && Materialize(t, Obj(template), Obj(doc)).Some?
    requires '@' !in version
    requires Subst(t, Get(template, "id"), Get(doc, "context")) == Some(Str(name + "@" + version))
    ensures
      && Get(doc, "context").Obj? && Get(Get(doc, "context").members, "id_suffix").Str?
      && var clean := t.sanitize(Get(Get(doc, "context").members, "id_suffix").s);
      Get(Materialize(t, Obj(template), Obj(doc)).value, "id") == Str(name + "/" + clean + "@" + version)
  {
    hide Materialize, Subst, Get, Suffixed;
    ServedExactly(t, template, doc);
    var context := Get(doc, "context");
    var clean := t.sanitize(Get(context.members, "id_suffix").s);
    var id :| Suffixed(name + "@" + version, clean, id) &&
              Get(Materialize(t, Obj(template), Obj(doc)).value, "id") == Str(id);
    SuffixedVersion(name, version, clean, id);
  }

  /** And of what was hashed. */
  lemma BuiltId(t: Text, bundle: List<Member>, chainId: int, entry: Address, name: string, version: string)
    requires ProperMembers(bundle) && Sourced(bundle) && BuildMaterialized(t, bundle, chainId, entry).Some?
    requires '@' !in version
    requires Subst(t, Get(bundle, "id"), Obj(BuildSourceContext(t, chainId, entry))) == Some(Str(name + "@" + version))
    ensures
      var suffix := if entry.idSuffix.Some? then entry.idSuffix.value else t.show(chainId) + "-" + entry.address;
      Get(BuildMaterialized(t, bundle, chainId, entry).value, "id") ==
        Str(name + "/" + t.sanitize(suffix) + "@" + version)
  {
    hide BuildMaterialized, BuildSourceContext, Subst, Get, Suffixed;
    BuiltExactly(t, bundle, chainId, entry);
    var suffix := if entry.idSuffix.Some? then entry.idSuffix.value else t.show(chainId) + "-" + entry.address;
    var id :| Suffixed(name + "@" + version, t.sanitize(suffix), id) &&
              Get(BuildMaterialized(t, bundle, chainId, entry).value, "id") == Str(id);
    SuffixedVersion(name, version, t.sanitize(suffix), id);
  }
}
