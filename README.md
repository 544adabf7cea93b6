# Heimdall `Item`: a Dafny model

Heimdall is a dashboard of application links. Its `Item` entity is either a
launchable link (type 0, "item") or a tag that groups other items (type 1,
"tag"). Each item is owned by a user id, where 0 means shared by everybody,
and may carry a JSON plugin configuration in its `description` column. This
project models the deterministic rules of `app/Item.php` and proves
properties about them:

- the global ownership scope, which decides which rows any query sees, and
  the `pinned` and `ofType` scopes, as filters over an in-memory table;
- the five type-driven display attributes (`link`, `droppable`, `linkTarget`,
  `linkIcon`, `linkType`);
- `nameFromClass`, built on a model of PHP's `explode` and `end`;
- configuration handling: `checkConfig` (what is stored), `getconfig` (what
  is read back, with the override URL normalised), `enhanced` and `enabled`;
- `tags()`: the visible tags of an item, read through the `item_tag` join
  table, headed by a synthetic dashboard entry when the item is filed under
  tag 0.

Files:

- `php.dfy`, module `Php`: nullable values, a PHP value type (null, bool,
  int, string, array, object), `empty()`, the boolean cast, `isset`,
  property read, and `explode`/`implode`/`end`, with the proof that
  `explode` and `implode` are inverse.
- `item.dfy`, module `Items`: the item record, the join-table row, the
  scopes, the attributes, `nameFromClass`, the configuration functions and
  `tags()`.
- `item_properties.dfy`, module `ItemProperties`: lemmas relating several
  operations.

Everything is a function. The source has no loops and no persistent state.
`getconfig` updates a freshly decoded object field by field; the model
(`Items.Normalise`) applies the same updates, in the same order, to a map.
`tags()` prepends to a local collection; the model builds the resulting
sequence.

The framework's collaborators are parameters:

- `User::currentUser()` is `current: Option<int>`, the signed-in user's id
  or none;
- `Setting::fetch('window_target')` is `windowTarget`;
- the `url()` helper is `urlFor: string -> string`;
- `__('app.dashboard')` is `dashboard`;
- `json_encode` is `encode`, and `json_decode` of a well-formed object is
  `decode`;
- the table and the `item_tag` join table are sequences of rows.

Two details of the code that the model keeps:

- `getconfig`'s default branch (app/Item.php:271-279) sets no `url` field;
  the model returns exactly the three fields it sets (`enabled: false`,
  `override_url: null`, `apikey: null`).
- A description of `"0"` counts as "no configuration", like `""` and null:
  the code tests `empty()`, and `"0"` is empty in PHP.

## Model

| member | source | states |
|---|---|---|
| Php.Empty | app/Item.php:70 | PHP `empty()` holds exactly of null, false, 0, "", "0" and the empty array (used at lines 70, 271 and 286) |
| Php.Truthy | app/Item.php:256-257 | the boolean cast: every object is true, a string is true unless "" or "0", an integer unless 0, null is false |
| Php.IsSet | app/Item.php:286 | `isset` fails only on null, so every non-empty value is set and an unset value is empty |
| Php.Property | app/Item.php:286 | a property read gives the stored value of a present property, and the result is set exactly when the property is present and not null (a missing property reads as null; the same read is made of `enabled` at line 257) |
| Items.Visible | app/Item.php:28-35 | a row is visible exactly when it is shared (user id 0) or owned by the signed-in user; with nobody signed in only shared rows |
| Items.Where | app/Item.php:28-35 | a query `where` keeps exactly the accepted rows (membership both ways) and each accepted row with its multiplicity |
| Items.Scoped | app/Item.php:28-35 | the rows any query sees are exactly the table's rows visible to the current user, with their multiplicities |
| ItemProperties.SharedRowVisibleToEveryone | app/Item.php:28-35 | a row with user id 0 is visible signed in as anybody and signed out |
| ItemProperties.OwnedRowVisibleOnlyToOwner | app/Item.php:28-35 | a row owned by user V != 0 is visible exactly when the current user is V |
| ItemProperties.DistinctUsersShareOnlySharedRows | app/Item.php:28-35 | two different signed-in users both see a row exactly when it is a shared row of the table |
| ItemProperties.AnonymousSeesLess | app/Item.php:28-35 | what a signed-out visitor sees is a sub-multiset of what any signed-in user sees |
| ItemProperties.WhereIdempotent | app/Item.php:31-33 | applying a where again to its own result changes nothing |
| ItemProperties.WhereCommutes | app/Item.php:31-33 | two wheres give the same rows in either order, so the global scope composes with the other scopes |
| ItemProperties.WhereConcat | app/Item.php:31-33 | a where acts row by row: filtering a concatenation is concatenating the filtered parts |
| ItemProperties.WhereStep | app/Item.php:31-33 | a where decides the first row alone and filters the rest independently |
| ItemProperties.ScopedIdempotent | app/Item.php:28-35 | re-applying the ownership scope to a scoped result changes nothing |
| Items.Pinned | app/Item.php:62-65 | the pinned scope keeps exactly the rows with pinned = 1 |
| Items.TypeIdOf | app/Item.php:193-205 | the type filter value is 0 exactly for "item" and 1 exactly for "tag"; other symbols are excluded by the precondition |
| Items.OfType | app/Item.php:193-205 | the ofType scope keeps exactly the rows whose type is the symbol's type id |
| ItemProperties.OfTypePartition | app/Item.php:195-204 | the "item" and "tag" scopes select disjoint rows, and together they cover every row of type 0 or 1 |
| Items.IsTag | app/Item.php:119 | an item counts as a tag exactly when its type column equals the type id of the "tag" scope, 1 (the same test at lines 131, 145, 157 and 169) |
| Items.TagPath | app/Item.php:120 | the tag-browse path is "tag/" followed by the item's url, which can be read back from it |
| Items.Link | app/Item.php:117-124 | a tag links to the URL generated for its tag-browse path; any other type links to its url verbatim |
| ItemProperties.OfTypeLinks | app/Item.php:117-124 | rows of the "item" scope link to their url; rows of the "tag" scope link to the URL of "tag/" + url |
| Items.Droppable | app/Item.php:129-136 | the droppable class is non-empty exactly for tags, and then it is " droppable" |
| Items.TargetAttribute | app/Item.php:148 | the fragment is ` target="` + setting + `"`; its length is the setting's plus 10 and the setting can be read back from it |
| Items.LinkTarget | app/Item.php:141-150 | the target is empty exactly when the item is a tag or the setting is "current"; otherwise it is the target attribute of the setting |
| ItemProperties.LinkTargetCarriesSetting | app/Item.php:141-150 | a non-empty link target holds the window_target setting verbatim between the quotes |
| Items.LinkIcon | app/Item.php:155-162 | the icon is "fa-tag" exactly for tags and "fa-arrow-alt-to-right" otherwise |
| Items.LinkType | app/Item.php:167-174 | the link type is "tags" exactly for tags and "items" otherwise |
| ItemProperties.TypeAttributesAgree | app/Item.php:117-174 | droppable, icon and link type all agree with "the type is 1", and a tag never has a target |
| ItemProperties.OfTypeLinkType | app/Item.php:167-205 | every row the ofType scope selects for a symbol has link type equal to that symbol plus "s" |
| Php.Explode | app/Item.php:182 | explode gives at least one segment, no segment contains the separator, and joining the segments restores the input |
| Php.ExplodeImplode | app/Item.php:182 | explode recovers any list of separator-free segments from their joined string, so the two are inverse |
| Php.ExplodeSeparatorFree | app/Item.php:182 | a string without the separator explodes to itself alone |
| Php.ExplodeFirstSegment | app/Item.php:182 | a separator-free word followed by the separator is split off as the first segment |
| Php.ImplodeLast | app/Item.php:182-183 | with two or more segments, the joined string is the joined prefix, the separator, then the last segment (the one end returns) |
| Php.End | app/Item.php:183 | `end` returns the last element: the list is its other elements followed by the result |
| Items.NameFromClass | app/Item.php:180-186 | the short name contains no backslash, is a suffix of the input, and is preceded by a backslash whenever it is shorter than the input |
| ItemProperties.NameFromClassUnique | app/Item.php:180-186 | those three properties determine the short name: it is the longest backslash-free suffix |
| ItemProperties.NameWithoutNamespace | app/Item.php:180-186 | a name without a backslash is its own short name |
| ItemProperties.NameFromClassIsEnd | app/Item.php:182-183 | the short name is the last segment that `explode` gives for the class name |
| ItemProperties.NameFromClassOfSegments | app/Item.php:180-186 | the short name of a backslash-joined list of segments is the last segment |
| ItemProperties.NameFromClassExamples | app/Item.php:180-186 | "Foo\Bar\Baz" gives "Baz" and "Baz" gives "Baz" |
| Items.Enhanced | app/Item.php:210-219 | enhanced exactly when a description is present, valid or not; an item that is not enhanced reads as unconfigured |
| Items.CheckConfig | app/Item.php:67-77 | checkConfig stores null exactly when the submitted value is PHP-empty, and otherwise its JSON encoding |
| ItemProperties.EmptyConfigStoredAsNull | app/Item.php:67-77 | an empty submitted configuration leaves the item not enhanced, not enabled, and reading the default configuration |
| ItemProperties.StoredConfigReadsBack | app/Item.php:67-77 | a stored non-empty configuration (with a codec that round-trips it) makes the item enhanced, reads back with every field except url and override_url unchanged, and enables the item exactly when its enabled field is truthy |
| Items.Unconfigured | app/Item.php:271 | getconfig takes the default branch exactly for a null, "" or "0" description |
| Items.HasOverride | app/Item.php:286 | `isset` and non-empty together mean: an override_url property is present and its value is not PHP-empty |
| Items.DefaultConfig | app/Item.php:271-279 | the default configuration has exactly the fields enabled = false, override_url = null and apikey = null |
| ItemProperties.UnconfiguredReadsDefault | app/Item.php:271-279 | a null, "" or "0" description reads as exactly that default, with no url field, and the item is not enabled |
| Items.Normalise | app/Item.php:281-292 | the decoded keys plus url and override_url are the result's keys; other fields are unchanged; a set, non-empty override becomes url and stays; otherwise url is the item's url and override_url is null |
| ItemProperties.NormaliseIdempotent | app/Item.php:285-290 | normalising an already normalised configuration changes nothing |
| Items.GetConfig | app/Item.php:267-293 | an unset or PHP-empty description gives the default; any other gives its decoded configuration, normalised with the item's url |
| ItemProperties.OverrideExample | app/Item.php:281-292 | a description with enabled = true and override_url = "http://x" reads with url and override_url both "http://x", and the item is enabled |
| ItemProperties.NoOverrideExample | app/Item.php:281-292 | a description with only enabled = true reads with url = the item's url and override_url = null, and the item is enabled |
| Items.Enabled | app/Item.php:252-262 | enabled implies enhanced (a description is present); an unset or PHP-empty description is never enabled; otherwise enabled is the truthiness of the decoded enabled field |
| Items.PluckTagIds | app/Item.php:82 | a tag id is among the plucked ids exactly when the join table files this item under that tag |
| Items.Project | app/Item.php:83 | the projection keeps a row's id, title, url and pinned columns |
| Items.DashboardRoot | app/Item.php:86-91 | the dashboard entry has id 0, the dashboard label as title, url "" and pinned 0, and no row with a non-zero id projects onto it |
| Items.Select | app/Item.php:83 | the selection projects each row, in order, to id, title, url and pinned |
| Items.SelectMembers | app/Item.php:83 | every selected row's projection is in the selection |
| Items.TagDetails | app/Item.php:81-83 | every visible row the item is filed under appears projected, and every entry is the projection of such a row |
| Items.Tags | app/Item.php:79-96 | when the item is filed under tag 0 the list is the dashboard entry {id 0, the dashboard label, url "", pinned 0} followed by the tag details; otherwise it is the tag details alone |
| ItemProperties.TagsMembers | app/Item.php:79-96 | an entry is in the list exactly when it is the dashboard entry of an item filed under tag 0, or the projection of a visible row the item is filed under |
| ItemProperties.TagsRootUnique | app/Item.php:85-93 | when stored ids are non-zero, the only entry with id 0 is the first one, and only when the item is filed under tag 0 |
| ItemProperties.AnonymousTagsAreShared | app/Item.php:79-96 | for a signed-out visitor every entry is the dashboard entry or the projection of a shared row |

## Left out

- Query-builder execution, soft deletes, factories and mass assignment (`$fillable`), and the `parents`, `children` and `user` relationships: these are framework behaviour. Scopes are modelled as filters over an in-memory sequence of rows.
- The SQL grouping of `where(...)->orWhere(...)` in the ownership scope: only the intended row predicate is modelled.
- `isEnhanced` and `isSearchProvider`: they load plugin classes dynamically and test them with `instanceof`, and those classes are not part of this model.
- `applicationDetails` and `getApplicationDescription`: they are catalog lookups in the database. Also, the declared `bool` return type conflicts with returning a record.
- `scopeOfType` with a symbol other than "item" or "tag": the filter value is then undefined in the source. The model's precondition excludes such symbols.
- `json_encode` and `json_decode` are parameters, so JSON syntax is not modelled. So are malformed descriptions (decode yields null, and setting a property on it then depends on the PHP version) and descriptions that decode to something other than an object.
- Floating-point values, and array keys that are integers: the value type has neither.
- The `type` column is an integer. PHP's `(int)` cast on a string column value is not modelled.
- Items.DashboardRoot, Items.Tags: the dashboard entry is built with `new self([...])`, which fills attributes through mass assignment, and `id` is not in `$fillable` (app/Item.php:38-52). Read as Laravel's `fill` behaves, the entry's `id` would then be silently dropped and stay null. The model gives the entry id 0, the value the code writes at line 87, and ItemProperties.TagsRootUnique relies on that id.
- Items.Tags: the result keeps the order of the rows in the table. The database does not guarantee this order.
- Items.Where: models `where` over an in-memory list, so it does not capture pagination or joins done in SQL.
- Php.Property, Items.Enabled, ItemProperties.StoredConfigReadsBack: the model reads a missing property as null, so when the decoded configuration has no `enabled` property, the model returns false. Plain PHP reads null there and emits a warning (a notice before PHP 8). Under the framework's error handler, which turns every non-deprecation error into an `ErrorException`, the read at app/Item.php:257 raises and `enabled()` fails instead of returning. The model does not capture that failure.
