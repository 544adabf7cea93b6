/** The `Item` entity of the dashboard: a launchable link (type 0) or a tag
    that groups other items (type 1), owned by a user id (0 meaning shared by
    everybody), optionally carrying a JSON-encoded plugin configuration in
    `description`. The framework's collaborators (the current user, the
    `window_target` setting, the URL generator, the translation of the
    dashboard label, JSON encoding and decoding) are parameters. */
module Items {
  import opened Php

  /** A row of the items table. `kind` is the `type` column (0 = item,
      1 = tag). `className` is the `class` column, kept only as part of the
      record: no modelled operation reads it. */
  datatype Item = Item(
    id: int,
    title: string,
    url: string,
    kind: int,
    pinned: int,
    userId: int,
    description: Option<string>,
    className: Option<string>)

  /** A row of the `item_tag` join table: item `itemId` is filed under tag `tagId`. */
  datatype ItemTag = ItemTag(itemId: int, tagId: int)

  /** An item loaded with only the columns id, title, url and pinned. */
  datatype TagRef = TagRef(id: int, title: string, url: string, pinned: int)

  /** A decoded configuration object: its properties by name. */
  type Config = map<string, Value>

  // ---------------------------------------------------------------------------
  // Query scopes

  /** The global `user_id` scope: with a signed-in user `u` a row is visible
      when it belongs to `u` or to nobody (user id 0); with nobody signed in
      only the shared rows are visible. */
  predicate Visible(current: Option<int>, row: Item)
    ensures Visible(current, row) <==> row.userId == 0 || current == Some(row.userId)
  {
    match current
    case Some(u) => row.userId == u || row.userId == 0
    case None => row.userId == 0
  }

  /** A `where` over the rows of a query, keeping the rows `keep` accepts. */
  function Where(rows: seq<Item>, keep: Item -> bool): (r: seq<Item>)
    ensures |r| <= |rows|
    ensures forall x :: x in r <==> x in rows && keep(x)
    ensures forall x :: multiset(r)[x] == if keep(x) then multiset(rows)[x] else 0
    ensures forall i :: 0 <= i < |r| ==> keep(r[i])
    decreases |rows|
  {
    if rows == [] then []
    else
      var rest := Where(rows[1..], keep);
      assert rows == [rows[0]] + rows[1..];
      if keep(rows[0]) then [rows[0]] + rest else rest
  }

  /** The rows of a table that any query made on behalf of `current` reads. */
  function Scoped(current: Option<int>, rows: seq<Item>): (r: seq<Item>)
    ensures forall x :: x in r <==> x in rows && Visible(current, x)
    ensures forall x :: multiset(r)[x] == if Visible(current, x) then multiset(rows)[x] else 0
  {
    Where(rows, x => Visible(current, x))
  }

  /** The `pinned` scope. */
  function Pinned(rows: seq<Item>): (r: seq<Item>)
    ensures forall x :: x in r <==> x in rows && x.pinned == 1
  {
    Where(rows, (x: Item) => x.pinned == 1)
  }

  /** The type id that the `ofType` scope filters on. The scope leaves it
      undefined for any symbol but "item" and "tag". */
  function TypeIdOf(symbol: string): (t: int)
    requires symbol == "item" || symbol == "tag"
    ensures t == 0 <==> symbol == "item"
    ensures t == 1 <==> symbol == "tag"
  {
    if symbol == "item" then 0 else 1
  }

  /** The `ofType` scope. */
  function OfType(rows: seq<Item>, symbol: string): (r: seq<Item>)
    requires symbol == "item" || symbol == "tag"
    ensures forall x :: x in r <==> x in rows && x.kind == TypeIdOf(symbol)
  {
    Where(rows, (x: Item) => x.kind == TypeIdOf(symbol))
  }

  // ---------------------------------------------------------------------------
  // Display attributes

  /** The item's type column is 1, the tag type: the type the "tag" scope selects. */
  predicate IsTag(item: Item)
    ensures IsTag(item) <==> item.kind == TypeIdOf("tag")
  {
    item.kind == 1
  }

  /** The path under which a tag's contents are browsed. */
  function TagPath(url: string): (path: string)
    ensures |path| == |url| + 4
    ensures path[..4] == "tag/" && path[4..] == url
  {
    "tag/" + url
  }

  /** The `link` attribute; `urlFor` is the framework's URL generator. */
  function Link(item: Item, urlFor: string -> string): (link: string)
    ensures IsTag(item) ==> link == urlFor(TagPath(item.url))
    ensures !IsTag(item) ==> link == item.url
  {
    if IsTag(item) then urlFor(TagPath(item.url)) else item.url
  }

  /** The `droppable` attribute: a CSS class suffix that only tags carry. */
  function Droppable(item: Item): (css: string)
    ensures css != "" <==> IsTag(item)
    ensures css != "" ==> css == " droppable"
  {
    if IsTag(item) then " droppable" else ""
  }

  /** The HTML attribute fragment that opens a link in window `target`. */
  function TargetAttribute(target: string): (fragment: string)
    ensures |fragment| == |target| + 10
    ensures fragment[..9] == " target=\"" && fragment[|fragment| - 1] == '"'
    ensures fragment[9..|fragment| - 1] == target
  {
    " target=\"" + target + "\""
  }

  /** The `linkTarget` attribute; `windowTarget` is the `window_target` setting. */
  function LinkTarget(item: Item, windowTarget: string): (fragment: string)
    ensures fragment == "" <==> IsTag(item) || windowTarget == "current"
    ensures fragment != "" ==> fragment == TargetAttribute(windowTarget)
  {
    if IsTag(item) || windowTarget == "current" then "" else TargetAttribute(windowTarget)
  }

  /** The `linkIcon` attribute. */
  function LinkIcon(item: Item): (icon: string)
    ensures icon == "fa-tag" <==> IsTag(item)
    ensures icon != "fa-tag" ==> icon == "fa-arrow-alt-to-right"
  {
    if IsTag(item) then "fa-tag" else "fa-arrow-alt-to-right"
  }

  /** The `linkType` attribute. */
  function LinkType(item: Item): (linkType: string)
    ensures linkType == "tags" <==> IsTag(item)
    ensures linkType != "tags" ==> linkType == "items"
  {
    if IsTag(item) then "tags" else "items"
  }

  // ---------------------------------------------------------------------------
  // Class names

  const Backslash: char := '\\'

  /** The short name of a namespaced class name: its text after the last
      backslash, or all of it when there is none. */
  function NameFromClass(className: string): (name: string)
    ensures Backslash !in name
    ensures |name| <= |className| && className[|className| - |name|..] == name
    ensures |name| < |className| ==> className[|className| - |name| - 1] == Backslash
  {
    var parts := Explode(Backslash, className);
    if |parts| == 1 then
      End(parts)
    else
      ImplodeLast(Backslash, parts);
      End(parts)
  }

  // ---------------------------------------------------------------------------
  // Configuration

  /** The value `checkConfig` stores in `description` for a submitted
      configuration: nothing for an empty one, its JSON text otherwise. */
  function CheckConfig(config: Value, encode: Value -> string): (stored: Option<string>)
    ensures stored == None <==> Empty(config)
    ensures stored != None ==> stored.value == encode(config)
  {
    if Empty(config) then None else Some(encode(config))
  }

  /** `enhanced()`: the item carries a configuration payload. */
  predicate Enhanced(item: Item)
    ensures Enhanced(item) <==> item.description != None
    ensures !Enhanced(item) ==> Unconfigured(item)
  {
    item.description != None
  }

  /** The description is unset or PHP-empty, so `getconfig` synthesises a default. */
  predicate Unconfigured(item: Item)
    ensures Unconfigured(item) <==> item.description in {None, Some(""), Some("0")}
  {
    item.description == None || Empty(Str(item.description.value))
  }

  /** The configuration of an item that has none. */
  function DefaultConfig(): (config: Config)
    ensures config.Keys == {"enabled", "override_url", "apikey"}
    ensures config["enabled"] == Bool(false) && !Truthy(config["enabled"])
    ensures config["override_url"] == Null && config["apikey"] == Null
  {
    map["enabled" := Bool(false), "override_url" := Null, "apikey" := Null]
  }

  /** A decoded configuration names a non-empty override URL. */
  predicate HasOverride(config: Config)
    ensures HasOverride(config) <==> "override_url" in config && !Empty(config["override_url"])
  {
    IsSet(Property(config, "override_url")) && !Empty(Property(config, "override_url"))
  }

  /** The updates `getconfig` makes to a decoded configuration, in order:
      `url` becomes the item's URL, then either the override replaces it or
      `override_url` is reset to null. */
  function Normalise(decoded: Config, url: string): (config: Config)
    ensures config.Keys == decoded.Keys + {"url", "override_url"}
    ensures forall k :: k in decoded && k != "url" && k != "override_url" ==> config[k] == decoded[k]
    ensures HasOverride(decoded) ==>
      config["url"] == decoded["override_url"] && config["override_url"] == decoded["override_url"]
    ensures !HasOverride(decoded) ==> config["url"] == Str(url) && config["override_url"] == Null
  {
    var config := decoded["url" := Str(url)];
    if IsSet(Property(config, "override_url")) && !Empty(Property(config, "override_url")) then
      config["url" := config["override_url"]]
    else
      config["override_url" := Null]
  }

  /** `getconfig()`: the item's decoded configuration, normalised, or the
      default when it has none. `decode` is `json_decode` of a well-formed
      object. */
  function GetConfig(item: Item, decode: string -> Config): (config: Config)
    ensures Unconfigured(item) ==> config == DefaultConfig()
    ensures !Unconfigured(item) ==> config == Normalise(decode(item.description.value), item.url)
  {
    if Unconfigured(item) then DefaultConfig()
    else Normalise(decode(item.description.value), item.url)
  }

  /** `enabled()`: an enhanced item whose configuration object is truthy (an
      object always is) and whose `enabled` property is truthy. */
  function Enabled(item: Item, decode: string -> Config): (enabled: bool)
    ensures enabled ==> Enhanced(item)
    ensures Unconfigured(item) ==> !enabled
    ensures !Unconfigured(item) ==>
      (enabled <==> Truthy(Property(decode(item.description.value), "enabled")))
  {
    if Enhanced(item) then
      var config := GetConfig(item, decode);
      if Truthy(Obj(config)) then Truthy(Property(config, "enabled")) else false
    else
      false
  }

  // ---------------------------------------------------------------------------
  // Tags of an item

  /** The tag ids the join table files item `id` under, in table order. */
  function PluckTagIds(pivot: seq<ItemTag>, id: int): (tagIds: seq<int>)
    ensures forall t :: t in tagIds <==> ItemTag(id, t) in pivot
    decreases |pivot|
  {
    if pivot == [] then []
    else
      var rest := PluckTagIds(pivot[1..], id);
      assert pivot == [pivot[0]] + pivot[1..];
      if pivot[0].itemId == id then [pivot[0].tagId] + rest else rest
  }

  /** An item loaded with the columns id, title, url and pinned only. */
  function Project(row: Item): (ref: TagRef)
    ensures ref.id == row.id && ref.title == row.title && ref.url == row.url && ref.pinned == row.pinned
  {
    TagRef(row.id, row.title, row.url, row.pinned)
  }

  /** The rows of a `select('id', 'title', 'url', 'pinned')` query, in order. */
  function Select(rows: seq<Item>): (refs: seq<TagRef>)
    ensures |refs| == |rows|
    ensures forall i :: 0 <= i < |rows| ==> refs[i] == Project(rows[i])
  {
    seq(|rows|, i requires 0 <= i < |rows| => Project(rows[i]))
  }

  /** Every selected row appears in the selection, projected. */
  lemma SelectMembers(rows: seq<Item>)
    ensures forall x :: x in rows ==> Project(x) in Select(rows)
  {
  }

  /** The synthetic, never stored entry that stands for the dashboard itself;
      `dashboard` is the translated label. */
  function DashboardRoot(dashboard: string): (root: TagRef)
    ensures root.id == 0 && root.title == dashboard && root.url == "" && root.pinned == 0
    ensures forall x: Item :: x.id != 0 ==> Project(x) != root
  {
    TagRef(0, dashboard, "", 0)
  }

  /** Row `x` is one of the tags of item `id` that the current user may see. */
  predicate VisibleTagOf(pivot: seq<ItemTag>, current: Option<int>, id: int, x: Item)
  {
    Visible(current, x) && ItemTag(id, x.id) in pivot
  }

  /** The visible rows that item `id` is filed under, projected. */
  function TagDetails(pivot: seq<ItemTag>, rows: seq<Item>, current: Option<int>, id: int): (details: seq<TagRef>)
    ensures forall x :: x in rows && VisibleTagOf(pivot, current, id, x) ==> Project(x) in details
    ensures forall i :: 0 <= i < |details| ==>
      exists x :: x in rows && VisibleTagOf(pivot, current, id, x) && details[i] == Project(x)
  {
    var tagIds := PluckTagIds(pivot, id);
    var found := Where(Scoped(current, rows), (x: Item) => x.id in tagIds);
    assert forall x :: x in found <==> x in rows && VisibleTagOf(pivot, current, id, x);
    SelectMembers(found);
    Select(found)
  }

  /** `tags()`: the item's tags as far as the current user may see them,
      preceded by one dashboard entry when the item is filed under tag 0. */
  function Tags(pivot: seq<ItemTag>, rows: seq<Item>, current: Option<int>, id: int, dashboard: string): (tags: seq<TagRef>)
    ensures ItemTag(id, 0) in pivot ==>
      |tags| >= 1 && tags[0] == DashboardRoot(dashboard) && tags[1..] == TagDetails(pivot, rows, current, id)
    ensures ItemTag(id, 0) !in pivot ==> tags == TagDetails(pivot, rows, current, id)
  {
    var tagIds := PluckTagIds(pivot, id);
    var details := TagDetails(pivot, rows, current, id);
    if 0 in tagIds then [DashboardRoot(dashboard)] + details else details
  }
}
