/** Properties of the Item model that relate several of its operations:
    who sees which rows, how the display attributes agree with the type
    scopes, what the short class name is, what a stored configuration reads
    back as, and what the tag list of an item holds. */
module ItemProperties {
  import opened Php
  import opened Items

  // ---------------------------------------------------------------------------
  // Visibility

  /** Shared rows are visible in every context. */
  lemma SharedRowVisibleToEveryone(current: Option<int>, row: Item)
    requires row.userId == 0
    ensures Visible(current, row)
  {
  }

  /** A row owned by a real user is visible to that user and to nobody else,
      an anonymous visitor included. */
  lemma OwnedRowVisibleOnlyToOwner(current: Option<int>, row: Item)
    requires row.userId != 0
    ensures Visible(current, row) <==> current == Some(row.userId)
  {
  }

  /** Applying a where twice is applying it once. */
  lemma {:induction false} WhereIdempotent(rows: seq<Item>, keep: Item -> bool)
    ensures Where(Where(rows, keep), keep) == Where(rows, keep)
    decreases |rows|
  {
    if rows != [] {
      WhereIdempotent(rows[1..], keep);
    }
  }

  /** Two wheres may be applied in either order. */
  lemma {:induction false} WhereCommutes(rows: seq<Item>, p: Item -> bool, q: Item -> bool)
    ensures Where(Where(rows, p), q) == Where(Where(rows, q), p)
    decreases |rows|
  {
    if rows != [] {
      WhereCommutes(rows[1..], p, q);
    }
  }

  /** One step of a where: its first row is kept or dropped on its own. */
  lemma WhereStep(rows: seq<Item>, keep: Item -> bool)
    requires rows != []
    ensures Where(rows, keep) == (if keep(rows[0]) then [rows[0]] else []) + Where(rows[1..], keep)
  {
  }

  /** Concatenation regrouped, stated apart from WhereConcat: in that lemma's
      context the quantified contract of Where makes this step too costly. */
  lemma Associative(x: seq<Item>, y: seq<Item>, z: seq<Item>)
    ensures x + (y + z) == (x + y) + z
  {
  }

  /** A where acts row by row: filtering a table is filtering each part of it. */
  lemma {:induction false} WhereConcat(a: seq<Item>, b: seq<Item>, keep: Item -> bool)
    ensures Where(a + b, keep) == Where(a, keep) + Where(b, keep)
    decreases |a|
  {
    if a == [] {
      assert a + b == b;
      assert Where(a, keep) == [];
    } else {
      var ab := a + b;
      assert ab[0] == a[0] && ab[1..] == a[1..] + b;
      WhereConcat(a[1..], b, keep);
      WhereStep(ab, keep);
      WhereStep(a, keep);
      var head := if keep(a[0]) then [a[0]] else [];
      Associative(head, Where(a[1..], keep), Where(b, keep));
    }
  }

  /** The ownership scope is idempotent: re-scoping a scoped result changes nothing. */
  lemma ScopedIdempotent(current: Option<int>, rows: seq<Item>)
    ensures Scoped(current, Scoped(current, rows)) == Scoped(current, rows)
  {
    WhereIdempotent(rows, x => Visible(current, x));
  }

  /** An anonymous visitor sees a sub-multiset of what any signed-in user sees. */
  lemma AnonymousSeesLess(rows: seq<Item>, u: int)
    ensures multiset(Scoped(None, rows)) <= multiset(Scoped(Some(u), rows))
  {
  }

  /** Two different signed-in users see exactly the same rows in common: the shared ones. */
  lemma DistinctUsersShareOnlySharedRows(rows: seq<Item>, u: int, v: int)
    requires u != v
    ensures forall x :: x in Scoped(Some(u), rows) && x in Scoped(Some(v), rows) <==> x in rows && x.userId == 0
  {
  }

  // ---------------------------------------------------------------------------
  // Display attributes and type scopes

  /** The four type-driven attributes agree on whether an item is a tag, and a
      tag never opens in another window. */
  lemma TypeAttributesAgree(item: Item, windowTarget: string)
    ensures Droppable(item) == " droppable" <==> IsTag(item)
    ensures LinkIcon(item) == "fa-tag" <==> IsTag(item)
    ensures LinkType(item) == "tags" <==> IsTag(item)
    ensures IsTag(item) ==> LinkTarget(item, windowTarget) == ""
  {
  }

  /** The `target` fragment carries the setting verbatim, so it can be read back. */
  lemma LinkTargetCarriesSetting(item: Item, windowTarget: string)
    requires LinkTarget(item, windowTarget) != ""
    ensures var f := LinkTarget(item, windowTarget); f[9..|f| - 1] == windowTarget
  {
  }

  /** The rows an `ofType` scope selects display as that type: `linkType` is
      the plural of the scope's symbol. */
  lemma OfTypeLinkType(rows: seq<Item>, symbol: string)
    requires symbol == "item" || symbol == "tag"
    ensures forall x :: x in OfType(rows, symbol) ==> LinkType(x) == symbol + "s"
  {
  }

  /** The two type scopes select disjoint rows, and between them every row of type 0 or 1. */
  lemma OfTypePartition(rows: seq<Item>)
    ensures forall x :: !(x in OfType(rows, "item") && x in OfType(rows, "tag"))
    ensures forall x :: x in rows && (x.kind == 0 || x.kind == 1) ==>
      x in OfType(rows, "item") || x in OfType(rows, "tag")
  {
  }

  /** Items (not tags) link to their own URL; tags link into the tag browser. */
  lemma OfTypeLinks(rows: seq<Item>, urlFor: string -> string)
    ensures forall x :: x in OfType(rows, "item") ==> Link(x, urlFor) == x.url
    ensures forall x :: x in OfType(rows, "tag") ==> Link(x, urlFor) == urlFor("tag/" + x.url)
  {
  }

  // ---------------------------------------------------------------------------
  // Class names

  /** A name without a namespace is its own short name. */
  lemma NameWithoutNamespace(className: string)
    requires Backslash !in className
    ensures NameFromClass(className) == className
  {
  }

  /** The three properties of NameFromClass's contract determine its result:
      the short name is the longest backslash-free suffix. */
  lemma NameFromClassUnique(className: string, name: string)
    requires Backslash !in name
    requires |name| <= |className| && className[|className| - |name|..] == name
    requires |name| < |className| ==> className[|className| - |name| - 1] == Backslash
    ensures name == NameFromClass(className)
  {
  }

  /** The short name is the last segment `explode` gives. */
  lemma NameFromClassIsEnd(className: string, parts: seq<string>)
    requires Explode(Backslash, className) == parts
    ensures NameFromClass(className) == parts[|parts| - 1]
  {
  }

  /** The short name of a name built from namespace segments is its last segment. */
  lemma NameFromClassOfSegments(segments: seq<string>)
    requires |segments| >= 1
    requires forall i :: 0 <= i < |segments| ==> Backslash !in segments[i]
    ensures NameFromClass(Implode(Backslash, segments)) == segments[|segments| - 1]
  {
    ExplodeImplode(Backslash, segments);
    NameFromClassIsEnd(Implode(Backslash, segments), segments);
  }

  /** A namespaced name and a plain one. */
  lemma NameFromClassExamples()
    ensures NameFromClass("Foo\\Bar\\Baz") == "Baz"
    ensures NameFromClass("Baz") == "Baz"
  {
  }

  // ---------------------------------------------------------------------------
  // Configuration

  /** An item without a usable description reads as the disabled default, which has no `url`. */
  lemma UnconfiguredReadsDefault(item: Item, decode: string -> Config)
    requires item.description == None || item.description == Some("") || item.description == Some("0")
    ensures GetConfig(item, decode) == map["enabled" := Bool(false), "override_url" := Null, "apikey" := Null]
    ensures "url" !in GetConfig(item, decode)
    ensures !Enabled(item, decode)
  {
  }

  /** Normalising is idempotent: a configuration `getconfig` produced reads back unchanged. */
  lemma NormaliseIdempotent(decoded: Config, url: string)
    ensures Normalise(Normalise(decoded, url), url) == Normalise(decoded, url)
  {
  }

  /** What is stored from a non-empty submitted configuration is what is read
      back, given a JSON codec that round-trips that configuration: every
      field other than `url` and `override_url` unchanged, and `enabled()`
      following the submitted `enabled` field. */
  lemma StoredConfigReadsBack(item: Item, fields: map<string, Value>, encode: Value -> string, decode: string -> Config)
    requires |fields| > 0
    requires encode(Arr(fields)) != "" && encode(Arr(fields)) != "0"
    requires decode(encode(Arr(fields))) == fields
    requires item.description == CheckConfig(Arr(fields), encode)
    ensures Enhanced(item)
    ensures forall k :: k in fields && k != "url" && k != "override_url" ==> GetConfig(item, decode)[k] == fields[k]
    ensures Enabled(item, decode) == Truthy(Property(fields, "enabled"))
  {
  }

  /** An empty submitted configuration is stored as null and reads back as the disabled default. */
  lemma EmptyConfigStoredAsNull(item: Item, config: Value, encode: Value -> string, decode: string -> Config)
    requires Empty(config)
    requires item.description == CheckConfig(config, encode)
    ensures !Enhanced(item) && !Enabled(item, decode)
    ensures GetConfig(item, decode) == DefaultConfig()
  {
  }

  /** With an override, the integration talks to the override URL. */
  lemma OverrideExample(item: Item, decode: string -> Config)
    requires item.description == Some("{\"enabled\":true,\"override_url\":\"http://x\"}")
    requires decode(item.description.value) == map["enabled" := Bool(true), "override_url" := Str("http://x")]
    ensures GetConfig(item, decode)["url"] == Str("http://x")
    ensures GetConfig(item, decode)["override_url"] == Str("http://x")
    ensures Enabled(item, decode)
  {
  }

  /** Without an override, it talks to the item's own URL, and `override_url` reads as null. */
  lemma NoOverrideExample(item: Item, decode: string -> Config)
    requires item.description == Some("{\"enabled\":true}")
    requires decode(item.description.value) == map["enabled" := Bool(true)]
    ensures GetConfig(item, decode)["url"] == Str(item.url)
    ensures GetConfig(item, decode)["override_url"] == Null
    ensures Enabled(item, decode)
  {
  }

  // ---------------------------------------------------------------------------
  // Tags

  /** The tag list holds exactly the dashboard entry (when the item is filed
      under tag 0) and the projections of the visible rows it is filed under. */
  lemma TagsMembers(pivot: seq<ItemTag>, rows: seq<Item>, current: Option<int>, id: int, dashboard: string, t: TagRef)
    ensures t in Tags(pivot, rows, current, id, dashboard) <==>
      (t == DashboardRoot(dashboard) && ItemTag(id, 0) in pivot)
      || exists x :: x in rows && VisibleTagOf(pivot, current, id, x) && t == Project(x)
  {
    var details := TagDetails(pivot, rows, current, id);
    var tags := Tags(pivot, rows, current, id, dashboard);
    assert t in details <==> exists x :: x in rows && VisibleTagOf(pivot, current, id, x) && t == Project(x) by {
      if t in details {
        var i :| 0 <= i < |details| && details[i] == t;
      }
    }
    if ItemTag(id, 0) in pivot {
      assert tags == [tags[0]] + tags[1..];
    }
  }

  /** When stored ids start at 1, the dashboard entry is the only entry with
      id 0: it is the first entry when the item is filed under tag 0, and
      absent otherwise. */
  lemma TagsRootUnique(pivot: seq<ItemTag>, rows: seq<Item>, current: Option<int>, id: int, dashboard: string)
    requires forall x :: x in rows ==> x.id != 0
    ensures forall i :: 0 <= i < |Tags(pivot, rows, current, id, dashboard)| ==>
      (Tags(pivot, rows, current, id, dashboard)[i].id == 0 <==> i == 0 && ItemTag(id, 0) in pivot)
  {
  }

  /** An anonymous visitor's tag list shows only shared tags. */
  lemma AnonymousTagsAreShared(pivot: seq<ItemTag>, rows: seq<Item>, id: int, dashboard: string)
    ensures forall i :: 0 <= i < |Tags(pivot, rows, None, id, dashboard)| ==>
      Tags(pivot, rows, None, id, dashboard)[i] == DashboardRoot(dashboard)
      || exists x :: x in rows && x.userId == 0 && Tags(pivot, rows, None, id, dashboard)[i] == Project(x)
  {
    var details := TagDetails(pivot, rows, None, id);
    var tags := Tags(pivot, rows, None, id, dashboard);
    forall i | 0 <= i < |tags| && tags[i] != DashboardRoot(dashboard)
      ensures exists x :: x in rows && x.userId == 0 && tags[i] == Project(x)
    {
      var j := if ItemTag(id, 0) in pivot then i - 1 else i;
      assert tags[i] == details[j];
      var x :| x in rows && VisibleTagOf(pivot, None, id, x) && details[j] == Project(x);
    }
  }
}
