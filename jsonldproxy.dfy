/**
 * The identifier rewriter of the proxy: a recursive, in-place walk over a
 * JSON-LD document that prefixes every node identifier (`@id`) with the proxy
 * address followed by the percent-encoded original.
 *
 * Python dicts and lists are mutable objects, so they are `Node`s on the heap;
 * strings, numbers, booleans and `None` are immutable and stay values. A
 * document is a tree: children of a node have pairwise disjoint footprints.
 */
module JsonLdProxy {
  import opened Wrappers
  import opened JsonValue
  import opened PercentEncoding

  /** A list item: an immutable scalar, or a reference to a dict or a list. */
  datatype Value = Prim(j: Json) | Ref(node: Node)

  /**
   * A Python dict (`isList == false`) or list (`isList == true`).
   *
   * The walk never stores into a list slot and never replaces a dict entry
   * that holds a container (the only store is to `@id`, and only after `quote`
   * accepted a string there), so those are constants here; the entries of a
   * dict that hold scalars are the mutable part.
   */
  class Node {
    const isList: bool
    /** A list's items, in order. */
    const items: seq<Value>
    /** A dict's entries whose value is a dict or a list. */
    const children: map<string, Node>
    /** A dict's entries whose value is a scalar. */
    var scalars: map<string, Json>
    /** The containers this one reaches, itself included. */
    ghost const Repr: set<Node>

    /**
     * The containers directly held here are below this one and apart from each
     * other: no cycles and no sharing.
     */
    ghost predicate Shape()
    {
      && this in Repr
      && (isList ==> children == map[])
      && (!isList ==> items == [])
      && (forall i | 0 <= i < |items| ::
            match items[i]
            case Prim(j) => j.IsScalar()
            case Ref(c) => c in Repr && c.Repr <= Repr && this !in c.Repr)
      && (forall k | k in children ::
            children[k] in Repr && children[k].Repr <= Repr && this !in children[k].Repr)
      && (forall i, i' | 0 <= i < i' < |items| && items[i].Ref? && items[i'].Ref? ::
            items[i].node.Repr !! items[i'].node.Repr)
      && (forall k, k' | k in children && k' in children && k != k' ::
            children[k].Repr !! children[k'].Repr)
    }

    /** A dict's key is either a container entry or a scalar entry. */
    ghost predicate Local()
      reads this
    {
      && (isList ==> scalars == map[])
      && children.Keys !! scalars.Keys
      && (forall k | k in scalars :: scalars[k].IsScalar())
    }

    /** Every container strictly below this one is well formed. */
    ghost predicate BelowValid()
      reads Repr - {this}
    {
      Shape() && forall n | n in Repr - {this} :: n.Shape() && n.Local()
    }

    ghost predicate Valid()
      reads Repr
    {
      BelowValid() && Local()
    }

    /** The Python value this container currently holds. */
    ghost function Model(): (r: Json)
      reads Repr
      requires Valid()
      ensures isList ==> r.JArr? && |r.items| == |items|
      ensures !isList ==> r.JObj? && r.members.Keys == children.Keys + scalars.Keys
      decreases Repr, 2
    {
      if isList then JArr(ItemsModel(|items|)) else JObj(Kids() + scalars)
    }

    /** The current values of a dict's entries that hold containers. */
    ghost function Kids(): (r: map<string, Json>)
      reads Repr - {this}
      requires BelowValid()
      ensures r.Keys == children.Keys
      ensures forall k | k in children :: r[k] == children[k].Model() && (r[k].JArr? || r[k].JObj?)
      decreases Repr, 1
    {
      map k | k in children :: children[k].Model()
    }

    /** The current values of a list's first `n` items. */
    ghost function ItemsModel(n: nat): (r: seq<Json>)
      reads Repr - {this}
      requires BelowValid() && n <= |items|
      ensures |r| == n
      ensures forall i | 0 <= i < n :: r[i] == ValueModel(items[i])
      decreases Repr, 1, n
    {
      if n == 0 then [] else ItemsModel(n - 1) + [ValueModel(items[n - 1])]
    }
  }

  /** The containers a value reaches. */
  ghost function Footprint(v: Value): set<Node>
  {
    if v.Ref? then v.node.Repr else {}
  }

  ghost predicate ValueValid(v: Value)
    reads Footprint(v)
  {
    match v
    case Prim(j) => j.IsScalar()
    case Ref(c) => c.Valid()
  }

  /** The Python value a list item stands for. */
  ghost function ValueModel(v: Value): Json
    reads Footprint(v)
    requires ValueValid(v)
    decreases Footprint(v), 3
  {
    match v
    case Prim(j) => j
    case Ref(c) => c.Model()
  }

  // ---------------------------------------------------------------------------
  // The rewrite on JSON values: what one pass makes of a document

  /** The new `@id` value: the proxy address followed by the encoded original. */
  function RewriteId(id: Json, proxy: string): Json
  {
    if id.JStr? && IsAscii(id.s) then JStr(proxy + QuoteAscii(id.s)) else id
  }

  /**
   * The document after one pass. `@id` values are replaced (and not descended
   * into); every other value of a dict, and every list item, is rewritten in turn.
   */
  function Rewritten(j: Json, proxy: string): (r: Json)
    ensures j.IsScalar() ==> r == j
    ensures j.JObj? ==> r.JObj? && r.members.Keys == j.members.Keys
    ensures j.JArr? ==> r.JArr? && |r.items| == |j.items|
  {
    match j
    case JObj(m) =>
      JObj(map k | k in m :: if k == IdKey then RewriteId(m[k], proxy) else Rewritten(m[k], proxy))
    case JArr(items) =>
      JArr(seq(|items|, i requires 0 <= i < |items| => Rewritten(items[i], proxy)))
    case _ => j
  }

  /**
   * The pass completes: every `@id` it meets is a string that `quote` can encode.
   * Otherwise Python raises (`AttributeError` or `TypeError` for a non-string,
   * `KeyError` for a non-ASCII character).
   */
  predicate Rewritable(j: Json)
  {
    match j
    case JObj(m) =>
      && (IdKey in m ==> m[IdKey].JStr? && IsAscii(m[IdKey].s))
      && (forall k | k in m && k != IdKey :: Rewritable(m[k]))
    case JArr(items) => forall i | 0 <= i < |items| :: Rewritable(items[i])
    case _ => true
  }

  /**
   * `b` differs from `a` at most in `@id` values: the same kinds, the same key
   * sets, the same array lengths in the same order, the same scalars elsewhere.
   */
  predicate OnlyIdsDiffer(a: Json, b: Json)
  {
    match a
    case JObj(m) =>
      && b.JObj? && b.members.Keys == m.Keys
      && forall k | k in m && k != IdKey :: OnlyIdsDiffer(m[k], b.members[k])
    case JArr(items) =>
      && b.JArr? && |b.items| == |items|
      && forall i | 0 <= i < |items| :: OnlyIdsDiffer(items[i], b.items[i])
    case _ => b == a
  }

  /** Every `@id` reached by the walk is a string starting with `proxy`. */
  predicate IdsUnder(j: Json, proxy: string)
  {
    match j
    case JObj(m) =>
      && (IdKey in m ==> m[IdKey].JStr? && proxy <= m[IdKey].s)
      && forall k | k in m && k != IdKey :: IdsUnder(m[k], proxy)
    case JArr(items) => forall i | 0 <= i < |items| :: IdsUnder(items[i], proxy)
    case _ => true
  }

  /** Undoes one pass: strips the proxy prefix from each `@id` and percent-decodes the rest. */
  function Restored(j: Json, proxy: string): (r: Json)
  {
    match j
    case JObj(m) =>
      JObj(map k | k in m :: if k == IdKey then RestoreId(m[k], proxy) else Restored(m[k], proxy))
    case JArr(items) =>
      JArr(seq(|items|, i requires 0 <= i < |items| => Restored(items[i], proxy)))
    case _ => j
  }

  function RestoreId(id: Json, proxy: string): Json
  {
    if id.JStr? && proxy <= id.s then JStr(Unquote(id.s[|proxy|..])) else id
  }

  /** Only `@id` values change; key sets, array lengths and every other value are kept. */
  lemma {:induction false} RewrittenOnlyIds(j: Json, proxy: string)
    ensures OnlyIdsDiffer(j, Rewritten(j, proxy))
  {
    match j
    case JObj(m) =>
      forall k | k in m && k != IdKey
        ensures OnlyIdsDiffer(m[k], Rewritten(j, proxy).members[k])
      {
        RewrittenOnlyIds(m[k], proxy);
      }
    case JArr(items) =>
      forall i | 0 <= i < |items|
        ensures OnlyIdsDiffer(items[i], Rewritten(j, proxy).items[i])
      {
        RewrittenOnlyIds(items[i], proxy);
      }
    case _ =>
  }

  /** After a completed pass every identifier points into the proxy. */
  lemma {:induction false} RewrittenIdsUnder(j: Json, proxy: string)
    requires Rewritable(j)
    ensures IdsUnder(Rewritten(j, proxy), proxy)
  {
    match j
    case JObj(m) =>
      forall k | k in m && k != IdKey
        ensures IdsUnder(Rewritten(j, proxy).members[k], proxy)
      {
        RewrittenIdsUnder(m[k], proxy);
      }
    case JArr(items) =>
      forall i | 0 <= i < |items|
        ensures IdsUnder(Rewritten(j, proxy).items[i], proxy)
      {
        RewrittenIdsUnder(items[i], proxy);
      }
    case _ =>
  }

  /** A completed pass loses nothing: the original identifiers can be recovered. */
  lemma {:induction false} RestoredRewritten(j: Json, proxy: string)
    requires Rewritable(j)
    ensures Restored(Rewritten(j, proxy), proxy) == j
  {
    match j
    case JObj(m) =>
      var back := Restored(Rewritten(j, proxy), proxy).members;
      forall k | k in m
        ensures back[k] == m[k]
      {
        if k == IdKey {
          var s := m[k].s;
          assert (proxy + QuoteAscii(s))[|proxy|..] == QuoteAscii(s);
          UnquoteQuote(s);
        } else {
          RestoredRewritten(m[k], proxy);
        }
      }
      assert back == m;
    case JArr(items) =>
      var back := Restored(Rewritten(j, proxy), proxy).items;
      forall i | 0 <= i < |items|
        ensures back[i] == items[i]
      {
        RestoredRewritten(items[i], proxy);
      }
      assert back == items;
    case _ =>
  }

  /**
   * The rewrite is not idempotent: a second pass quotes the proxied identifier
   * again behind a second copy of the proxy address.
   */
  lemma RewriteTwice(s: string, proxy: string)
    requires IsAscii(s) && IsAscii(proxy) && proxy != []
    ensures var once := Rewritten(JObj(map[IdKey := JStr(s)]), proxy);
      && once == JObj(map[IdKey := JStr(proxy + QuoteAscii(s))])
      && Rewritable(once)
      && Rewritten(once, proxy) == JObj(map[IdKey := JStr(proxy + QuoteAscii(proxy + QuoteAscii(s)))])
      && Rewritten(once, proxy) != once
  {
    var once := Rewritten(JObj(map[IdKey := JStr(s)]), proxy);
    assert once.members == map[IdKey := JStr(proxy + QuoteAscii(s))];
    var t := proxy + QuoteAscii(s);
    assert IsAscii(t) by {
      forall i | 0 <= i < |t|
        ensures IsAsciiChar(t[i])
      {
        if i >= |proxy| {
          assert t[i] == QuoteAscii(s)[i - |proxy|];
        }
      }
    }
    assert Rewritten(once, proxy).members == map[IdKey := JStr(proxy + QuoteAscii(t))];
    assert |proxy + QuoteAscii(t)| > |t|;
  }

  // ---------------------------------------------------------------------------
  // The in-place walk

  /**
   * `rewrite_urls(data, proxy_url)`: rewrites a dict or a list in place and
   * returns the same reference; a scalar is returned as it is. `None` stands for
   * the exception the walk raises at an `@id` it cannot encode.
   */
  method RewriteUrls(data: Value, proxy: string) returns (r: Option<Value>)
    requires ValueValid(data)
    modifies Footprint(data)
    ensures ValueValid(data)
    ensures r.Some? <==> Rewritable(old(ValueModel(data)))
    ensures r.Some? ==> r.value == data && ValueModel(data) == Rewritten(old(ValueModel(data)), proxy)
    decreases Footprint(data), 3
  {
    match data
    case Ref(node) =>
      if !node.isList {
        var d := RewriteDictUrls(node, proxy);
        r := if d.Some? then Some(Ref(d.value)) else None;
      } else {
        var l := RewriteListUrls(node, proxy);
        r := if l.Some? then Some(Ref(l.value)) else None;
      }
    case Prim(_) =>
      r := Some(data);
  }

  /** `_rewrite_dict_urls(dict_, proxy_url)`. */
  method RewriteDictUrls(d: Node, proxy: string) returns (r: Option<Node>)
    requires d.Valid() && !d.isList
    modifies d.Repr
    ensures d.Valid()
    ensures r.Some? <==> Rewritable(old(d.Model()))
    ensures r.Some? ==> r.value == d && d.Model() == Rewritten(old(d.Model()), proxy)
    decreases d.Repr, 2
  {
    ghost var kids, scalars := d.Kids(), d.scalars;
    if IdKey in d.children {
      // `quote` of a dict or a list raises
      return None;
    }
    if IdKey in d.scalars {
      var id := d.scalars[IdKey];
      if !id.JStr? {
        return None;
      }
      var quoted := Quote(id.s);
      if quoted.None? {
        return None;
      }
      d.scalars := d.scalars[IdKey := JStr(proxy + quoted.value)];
    }
    var ok := RewriteEntries(d, proxy);
    if !ok {
      NotRewritableEntries(kids, scalars);
      return None;
    }
    DictRewritten(kids, scalars, d.scalars, proxy);
    r := Some(d);
  }

  /**
   * The loop of `_rewrite_dict_urls`: every value but the one under `@id` is
   * rewritten in turn; a scalar comes back as it is.
   */
  method RewriteEntries(d: Node, proxy: string) returns (ok: bool)
    requires d.Valid() && !d.isList
    modifies d.Repr - {d}
    ensures d.Valid()
    ensures ok <==> EntriesRewritable(old(d.Kids()), old(d.Kids()).Keys)
    ensures ok ==> d.Kids() == PartlyRewritten(old(d.Kids()), {}, proxy)
    decreases d.Repr, 1
  {
    ghost var before := d.Kids();
    var todo := d.children.Keys + d.scalars.Keys;
    while todo != {}
      invariant todo <= d.children.Keys + d.scalars.Keys
      invariant d.Valid()
      invariant d.Kids() == PartlyRewritten(before, todo, proxy)
      invariant EntriesRewritable(before, before.Keys - todo)
      decreases todo
    {
      var key :| key in todo;
      PartlyRewrittenStep(before, todo, key, proxy);
      todo := todo - {key};
      if key == IdKey {
        continue;
      }
      if key in d.children {
        var done := RewriteEntry(d, key, proxy);
        if !done {
          return false;
        }
      } else {
        var _ := RewriteUrls(Prim(d.scalars[key]), proxy);
      }
    }
    ok := true;
  }

  /** One turn of the loop of `_rewrite_dict_urls`, on an entry that holds a container. */
  method RewriteEntry(d: Node, key: string, proxy: string) returns (ok: bool)
    requires d.Valid() && !d.isList && key in d.children
    modifies d.children[key].Repr
    ensures d.Valid()
    ensures ok <==> Rewritable(old(d.Kids())[key])
    ensures ok ==> d.Kids() == old(d.Kids())[key := Rewritten(old(d.Kids())[key], proxy)]
    decreases d.Repr, 0
  {
    var child := d.children[key];
    ghost var kids := d.Kids();
    var done := RewriteUrls(Ref(child), proxy);
    ok := done.Some?;
    assert d.Kids() == kids[key := child.Model()] by {
      assert forall k | k in d.children && k != key :: d.children[k].Repr !! child.Repr;
    }
  }

  /** `_rewrite_list_urls(list_, proxy_url)`. */
  method RewriteListUrls(l: Node, proxy: string) returns (r: Option<Node>)
    requires l.Valid() && l.isList
    modifies l.Repr
    ensures l.Valid()
    ensures r.Some? <==> Rewritable(old(l.Model()))
    ensures r.Some? ==> r.value == l && l.Model() == Rewritten(old(l.Model()), proxy)
    decreases l.Repr, 2
  {
    ghost var before := l.ItemsModel(|l.items|);
    for i := 0 to |l.items|
      invariant l.Valid()
      invariant l.ItemsModel(|l.items|) == PartlyRewrittenItems(before, i, proxy)
      invariant forall k | 0 <= k < i :: Rewritable(before[k])
    {
      var done := RewriteItem(l, i, proxy);
      if !done {
        return None;
      }
      PartlyRewrittenItemsStep(before, i, proxy);
    }
    ListRewritten(before, proxy);
    r := Some(l);
  }

  /** One turn of the loop of `_rewrite_list_urls`. */
  method RewriteItem(l: Node, i: nat, proxy: string) returns (ok: bool)
    requires l.Valid() && l.isList && i < |l.items|
    modifies Footprint(l.items[i])
    ensures l.Valid()
    ensures ok <==> Rewritable(old(l.ItemsModel(|l.items|))[i])
    ensures ok ==>
              l.ItemsModel(|l.items|) ==
              old(l.ItemsModel(|l.items|))[i := Rewritten(old(l.ItemsModel(|l.items|))[i], proxy)]
    decreases l.Repr, 1
  {
    var done := RewriteUrls(l.items[i], proxy);
    ok := done.Some?;
  }

  /** The container entries of a dict after the keys outside `todo` were visited. */
  ghost function PartlyRewritten(kids: map<string, Json>, todo: set<string>, proxy: string): (r: map<string, Json>)
    ensures r.Keys == kids.Keys
  {
    map k | k in kids :: if k in todo || k == IdKey then kids[k] else Rewritten(kids[k], proxy)
  }

  /** The entries under `keys`, other than `@id`, can be rewritten. */
  ghost predicate EntriesRewritable(kids: map<string, Json>, keys: set<string>)
  {
    forall k | k in keys && k in kids && k != IdKey :: Rewritable(kids[k])
  }

  lemma PartlyRewrittenStep(kids: map<string, Json>, todo: set<string>, key: string, proxy: string)
    requires key in todo
    ensures PartlyRewritten(kids, todo - {key}, proxy) ==
      if key in kids && key != IdKey then PartlyRewritten(kids, todo, proxy)[key := Rewritten(kids[key], proxy)]
      else PartlyRewritten(kids, todo, proxy)
  {
  }

  /** A list's items after the first `i` were visited. */
  ghost function PartlyRewrittenItems(items: seq<Json>, i: nat, proxy: string): (r: seq<Json>)
    requires i <= |items|
    ensures |r| == |items|
  {
    seq(|items|, k requires 0 <= k < |items| => if k < i then Rewritten(items[k], proxy) else items[k])
  }

  lemma PartlyRewrittenItemsStep(items: seq<Json>, i: nat, proxy: string)
    requires i < |items|
    ensures PartlyRewrittenItems(items, i + 1, proxy) ==
      PartlyRewrittenItems(items, i, proxy)[i := Rewritten(items[i], proxy)]
  {
  }

  /** What `_rewrite_list_urls` leaves when no item raised. */
  lemma ListRewritten(items: seq<Json>, proxy: string)
    ensures Rewritable(JArr(items)) <==> forall k | 0 <= k < |items| :: Rewritable(items[k])
    ensures JArr(PartlyRewrittenItems(items, |items|, proxy)) == Rewritten(JArr(items), proxy)
  {
  }

  lemma NotRewritableEntries(kids: map<string, Json>, scalars: map<string, Json>)
    requires kids.Keys !! scalars.Keys
    requires !EntriesRewritable(kids, kids.Keys)
    ensures !Rewritable(JObj(kids + scalars))
  {
    var k :| k in kids && k != IdKey && !Rewritable(kids[k]);
    assert (kids + scalars)[k] == kids[k];
  }

  /**
   * What `_rewrite_dict_urls` leaves when no entry raised: the `@id` scalar
   * rewritten, the other scalars as they were, the containers rewritten.
   */
  lemma DictRewritten(kids: map<string, Json>, before: map<string, Json>, after: map<string, Json>, proxy: string)
    requires kids.Keys !! before.Keys && IdKey !in kids
    requires forall k | k in before :: before[k].IsScalar()
    requires IdKey in before ==> before[IdKey].JStr? && IsAscii(before[IdKey].s)
    requires after == if IdKey in before then before[IdKey := RewriteId(before[IdKey], proxy)] else before
    requires EntriesRewritable(kids, kids.Keys)
    ensures Rewritable(JObj(kids + before))
    ensures JObj(PartlyRewritten(kids, {}, proxy) + after) == Rewritten(JObj(kids + before), proxy)
  {
    var m := kids + before;
    assert forall k | k in m && k != IdKey :: Rewritable(m[k]) by {
      forall k | k in m && k != IdKey
        ensures Rewritable(m[k])
      {
        if k in before {
          assert m[k] == before[k];
        }
      }
    }
    var got, want := PartlyRewritten(kids, {}, proxy) + after, Rewritten(JObj(m), proxy).members;
    assert got.Keys == m.Keys == want.Keys;
    forall k | k in m
      ensures got[k] == want[k]
    {
      if k in before && k != IdKey {
        assert before[k].IsScalar();
      }
    }
    assert got == want;
  }
}
