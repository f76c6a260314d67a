/**
 * The query resolvers of the demo GraphQL server, over an arbitrary list of
 * plugins: `plugins` (filter by category and enabled flag), `plugin` and
 * `pluginBySlug` (first match by id or slug) and `variant` (first variant
 * with an id, plugin by plugin).
 */
module Resolvers {
  import opened Wrappers
  import opened Connectors
  import opened SeqSearch

  /** A GraphQL argument as a resolver receives it: left out (undefined), explicitly null, or a value. */
  datatype Arg<T> = Omitted | Null | Given(value: T)

  /** `if (category)`: only a non-empty string is truthy, so only that filters. */
  predicate CategoryFilters(category: Arg<string>) {
    category.Given? && category.value != ""
  }

  /** `p.enabled === enabled` for an argument that is not undefined; a boolean is never `=== null`. */
  predicate EnabledEquals(p: Plugin, enabled: Arg<bool>) {
    enabled.Given? && p.enabled == enabled.value
  }

  /** The single condition a plugin must meet to be listed by `plugins`. */
  predicate Selected(p: Plugin, category: Arg<string>, enabled: Arg<bool>) {
    && (CategoryFilters(category) ==> p.category == category.value)
    && (!enabled.Omitted? ==> EnabledEquals(p, enabled))
  }

  /** The `plugins` query: narrow by category when one is given, then by the enabled flag when it is not undefined. */
  function Plugins(plugins: seq<Plugin>, category: Arg<string>, enabled: Arg<bool>): (filtered: seq<Plugin>)
    ensures IsSubsequence(filtered, plugins) && |filtered| <= |plugins|
    ensures forall p :: multiset(filtered)[p] == if Selected(p, category, enabled) then multiset(plugins)[p] else 0
    ensures forall p :: p in filtered <==> p in plugins && Selected(p, category, enabled)
    ensures !CategoryFilters(category) && enabled.Omitted? ==> filtered == plugins
    ensures CategoryFilters(category) ==> forall p :: p in filtered ==> p.category == category.value
    ensures enabled.Given? ==> forall p :: p in filtered ==> p.enabled == enabled.value
    ensures enabled.Null? ==> filtered == []
  {
    var byCategory :=
      if CategoryFilters(category) then Filter(plugins, (p: Plugin) => p.category == category.value) else plugins;
    var byEnabled :=
      if enabled.Omitted? then byCategory else Filter(byCategory, p => EnabledEquals(p, enabled));
    if CategoryFilters(category) && !enabled.Omitted? then
      SubsequenceTransitive(byEnabled, byCategory, plugins);
      byEnabled
    else if !CategoryFilters(category) && enabled.Omitted? then
      SubsequenceReflexive(plugins);
      byEnabled
    else
      byEnabled
  }

  /** The `plugin` query: the first plugin with this id, or none (undefined). */
  function PluginById(plugins: seq<Plugin>, id: string): (r: Option<Plugin>)
    ensures r.None? <==> forall k :: 0 <= k < |plugins| ==> plugins[k].id != id
    ensures r.Some? ==> r.value.id == id
    ensures r.Some? ==> exists k :: 0 <= k < |plugins| && plugins[k] == r.value
                                 && forall j :: 0 <= j < k ==> plugins[j].id != id
  {
    Find(plugins, (p: Plugin) => p.id == id)
  }

  /** The `pluginBySlug` query: the first plugin with this slug, or none (undefined). */
  function PluginBySlug(plugins: seq<Plugin>, slug: string): (r: Option<Plugin>)
    ensures r.None? <==> forall k :: 0 <= k < |plugins| ==> plugins[k].slug != slug
    ensures r.Some? ==> r.value.slug == slug
    ensures r.Some? ==> exists k :: 0 <= k < |plugins| && plugins[k] == r.value
                                 && forall j :: 0 <= j < k ==> plugins[j].slug != slug
  {
    Find(plugins, (p: Plugin) => p.slug == slug)
  }

  function VariantIdIs(id: string): Variant -> bool {
    (v: Variant) => v.id == id
  }

  /** Every variant of every plugin, plugin by plugin, each plugin's variants in their order. */
  function AllVariants(plugins: seq<Plugin>): seq<Variant> {
    if plugins == [] then [] else plugins[0].variants + AllVariants(plugins[1..])
  }

  /** A variant is in the flattened list exactly when some plugin has it. */
  lemma {:induction false} AllVariantsMembers(plugins: seq<Plugin>)
    ensures forall v :: v in AllVariants(plugins) <==>
              exists i :: 0 <= i < |plugins| && v in plugins[i].variants
  {
    if plugins != [] {
      AllVariantsMembers(plugins[1..]);
      assert forall i :: 1 <= i < |plugins| ==> plugins[i] == plugins[1..][i - 1];
    }
  }

  /**
   * The `variant` query: look through the plugins in order and return the
   * first variant of the first plugin that has one with this id, or null.
   */
  method VariantById(plugins: seq<Plugin>, id: string) returns (r: Option<Variant>)
    ensures r == Find(AllVariants(plugins), VariantIdIs(id))
    ensures r.None? <==> forall i, v :: 0 <= i < |plugins| && v in plugins[i].variants ==> v.id != id
    ensures r.Some? ==> r.value.id == id && exists i :: 0 <= i < |plugins| && r.value in plugins[i].variants
  {
    AllVariantsMembers(plugins);
    var matches := VariantIdIs(id);
    for i := 0 to |plugins|
      invariant Find(AllVariants(plugins), matches) == Find(AllVariants(plugins[i..]), matches)
    {
      assert AllVariants(plugins[i..]) == plugins[i].variants + AllVariants(plugins[i + 1..]);
      FindAppend(plugins[i].variants, AllVariants(plugins[i + 1..]), matches);
      var found := Find(plugins[i].variants, matches);
      if found.Some? {
        return found;
      }
    }
    assert plugins[|plugins|..] == [];
    var all := AllVariants(plugins);
    forall i, v | 0 <= i < |plugins| && v in plugins[i].variants
      ensures v.id != id
    {
      assert v in all;
      var k :| 0 <= k < |all| && all[k] == v;
      assert !matches(all[k]);
    }
    return None;
  }
}
