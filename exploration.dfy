/**
 * The Exploration post type's request-time behaviour (post-type/exploration.php):
 * the archive query filter, the re:wild redirect decision, the related-posts
 * filters, the cached list of explorations sorted by location and the robots.txt
 * rules for re:wild posts. WordPress queries and the object cache are inputs and
 * outputs of these members.
 */
module Exploration {
  import opened Common

  const Slug := "exploration"
  const ExplorationTypeSlug := "exploration-type"
  const RewildSlug := "rewild"

  /** One clause of a tax_query. */
  datatype TaxClause = TaxClause(taxonomy: string, field: string, terms: string, operator: string)

  /** A query variable: a tax_query list, or any other (non-array) value. */
  datatype QueryVar = Scalar(text: string) | Clauses(clauses: seq<TaxClause>)

  /** The clause appended to keep re:wild posts out of the exploration archive. */
  const RewildExclusion := TaxClause(ExplorationTypeSlug, "slug", RewildSlug, "NOT IN")

  /** The main-query object that pre_get_posts receives and changes through `set`. */
  class Query {
    const isMainQuery: bool
    var vars: map<string, QueryVar>

    constructor (isMainQuery: bool, vars: map<string, QueryVar>)
      ensures this.isMainQuery == isMainQuery && this.vars == vars
    {
      this.isMainQuery := isMainQuery;
      this.vars := vars;
    }

    /** `$query->get( $k )`: an unset variable reads as the empty string. */
    function Get(k: string): (v: QueryVar)
      reads this
      ensures k !in vars ==> v == Scalar("")
      ensures k in vars ==> v == vars[k]
    {
      if k in vars then vars[k] else Scalar("")
    }

    /** `$query->set( $k, $v )`. */
    method Set(k: string, v: QueryVar)
      modifies this`vars
      ensures vars == old(vars)[k := v]
    {
      vars := vars[k := v];
    }
  }

  /** The clauses of a tax_query value: a value that is not an array counts as no clauses. */
  function ExistingClauses(v: QueryVar): (cs: seq<TaxClause>)
    ensures v.Scalar? ==> cs == []
    ensures v.Clauses? ==> cs == v.clauses
  {
    match v
    case Scalar(_) => []
    case Clauses(cs) => cs
  }

  /**
   * pre_get_posts: outside the admin, for the main query of the exploration
   * archive, append the re:wild exclusion to the tax_query and order by title
   * ascending; any other query is left alone.
   */
  method FilterPreGetPosts(query: Query, isAdmin: bool, isExplorationArchive: bool)
    modifies query`vars
    ensures isAdmin || !query.isMainQuery || !isExplorationArchive ==> query.vars == old(query.vars)
    ensures !isAdmin && query.isMainQuery && isExplorationArchive ==>
      && query.vars.Keys == old(query.vars).Keys + {"tax_query", "orderby", "order"}
      && query.vars["tax_query"] == Clauses(ExistingClauses(old(query.Get("tax_query"))) + [RewildExclusion])
      && query.vars["orderby"] == Scalar("title")
      && query.vars["order"] == Scalar("ASC")
      && forall k :: k in old(query.vars) && k !in {"tax_query", "orderby", "order"} ==> query.vars[k] == old(query.vars)[k]
  {
    if isAdmin || !query.isMainQuery || !isExplorationArchive {
      return;
    }
    var taxQuery := query.Get("tax_query");
    var clauses := if taxQuery.Clauses? then taxQuery.clauses else [];
    clauses := clauses + [RewildExclusion];
    query.Set("tax_query", Clauses(clauses));
    query.Set("orderby", Scalar("title"));
    query.Set("order", Scalar("ASC"));
  }

  /** A term of the exploration-type taxonomy, by its slug. */
  datatype TypeTerm = TypeTerm(slug: string)

  /** wp_get_object_terms: the post's terms, or a WP_Error. */
  datatype TermsResult = TermsError | Terms(terms: seq<TypeTerm>)

  /** The array_filter of redirect_rewild: the terms whose slug is `rewild`, in order. */
  function RewildTerms(ts: seq<TypeTerm>): (r: seq<TypeTerm>)
    ensures |r| <= |ts|
    ensures forall i :: 0 <= i < |r| ==> r[i].slug == RewildSlug
  {
    if ts == [] then []
    else if ts[0].slug == RewildSlug then [ts[0]] + RewildTerms(ts[1..])
    else RewildTerms(ts[1..])
  }

  /** The filter keeps something exactly when some term is `rewild`. */
  lemma {:induction false} RewildTermsNonEmpty(ts: seq<TypeTerm>)
    ensures RewildTerms(ts) != [] <==> exists i :: 0 <= i < |ts| && ts[i].slug == RewildSlug
  {
    if ts != [] {
      RewildTermsNonEmpty(ts[1..]);
      if exists i :: 0 <= i < |ts| && ts[i].slug == RewildSlug {
        var i :| 0 <= i < |ts| && ts[i].slug == RewildSlug;
        if i > 0 {
          assert ts[1..][i - 1].slug == RewildSlug;
        }
      }
      if exists i :: 0 <= i < |ts[1..]| && ts[1..][i].slug == RewildSlug {
        var i :| 0 <= i < |ts[1..]| && ts[1..][i].slug == RewildSlug;
        assert ts[i + 1].slug == RewildSlug;
      }
    }
  }

  /**
   * template_redirect: a single exploration is redirected to the home page
   * exactly when its exploration types include `rewild`; an error or no terms
   * means no redirect.
   */
  function RedirectRewild(isSingularExploration: bool, types: TermsResult): (redirect: bool)
    ensures redirect <==>
      && isSingularExploration
      && types.Terms?
      && exists i :: 0 <= i < |types.terms| && types.terms[i].slug == RewildSlug
  {
    if isSingularExploration && types.Terms? && types.terms != [] then
      RewildTermsNonEmpty(types.terms);
      RewildTerms(types.terms) != []
    else
      false
  }

  /** rest_api_allowed_post_types: the exploration post type is appended. */
  function AllowInRelatedPosts(allowedPostTypes: seq<string>): (r: seq<string>)
    ensures |r| == |allowedPostTypes| + 1
    ensures r[..|allowedPostTypes|] == allowedPostTypes
    ensures r[|allowedPostTypes|] == Slug
  {
    allowedPostTypes + [Slug]
  }

  /** jetpack_relatedposts_filter_exclude_post_ids: the published re:wild post ids are appended. */
  function ExcludeRewildPostsFromRelated(postIds: seq<nat>, rewildPostIds: seq<nat>): (r: seq<nat>)
    ensures |r| == |postIds| + |rewildPostIds|
    ensures r[..|postIds|] == postIds
    ensures r[|postIds|..] == rewildPostIds
  {
    postIds + rewildPostIds
  }

  /** The lists concatenated in order. */
  function Flatten(lists: seq<seq<nat>>): seq<nat> {
    if lists == [] then [] else Flatten(lists[..|lists| - 1]) + lists[|lists| - 1]
  }

  /** An id is in the concatenation exactly when it is in one of the lists. */
  lemma {:induction false} InFlatten(lists: seq<seq<nat>>, x: nat)
    ensures x in Flatten(lists) <==> exists i :: 0 <= i < |lists| && x in lists[i]
  {
    if lists != [] {
      var init := lists[..|lists| - 1];
      InFlatten(init, x);
      if exists i :: 0 <= i < |init| && x in init[i] {
        var i :| 0 <= i < |init| && x in init[i];
        assert x in lists[i];
      }
      if exists i :: 0 <= i < |lists| && x in lists[i] {
        var i :| 0 <= i < |lists| && x in lists[i];
        if i < |init| {
          assert x in init[i];
        }
      }
    }
  }

  /** The 'explorations' object cache group, as far as these helpers use it. */
  datatype CachedSlugs = SlugArray(slugs: seq<string>) | NonArray(truthy: bool)
  datatype CacheGroup = CacheGroup(sortedExplorations: Option<seq<nat>>, rewildSlugs: Option<CachedSlugs>)

  /** A cached id list is used only when it is truthy, that is, a non-empty array. */
  predicate SortedCacheHit(cache: CacheGroup) {
    cache.sortedExplorations.Some? && cache.sortedExplorations.value != []
  }

  /**
   * get_sorted_explorations, as a function of the cache and of the per-location
   * query results (locations in name order): the cached list when it is truthy,
   * otherwise the concatenation, which is also written to the cache.
   */
  function SortedExplorations(cache: CacheGroup, idsByLocation: seq<seq<nat>>): (r: (seq<nat>, CacheGroup))
    ensures SortedCacheHit(cache) ==> r == (cache.sortedExplorations.value, cache)
    ensures !SortedCacheHit(cache) ==> r == (Flatten(idsByLocation), cache.(sortedExplorations := Some(Flatten(idsByLocation))))
  {
    if SortedCacheHit(cache) then (cache.sortedExplorations.value, cache)
    else
      var ids := Flatten(idsByLocation);
      (ids, cache.(sortedExplorations := Some(ids)))
  }

  /** get_sorted_explorations: the loop that accumulates the per-location lists with array_merge. */
  method GetSortedExplorations(cache: CacheGroup, idsByLocation: seq<seq<nat>>) returns (ids: seq<nat>, cache': CacheGroup)
    ensures (ids, cache') == SortedExplorations(cache, idsByLocation)
  {
    if SortedCacheHit(cache) {
      return cache.sortedExplorations.value, cache;
    }
    ids := [];
    var i := 0;
    while i < |idsByLocation|
      invariant 0 <= i <= |idsByLocation|
      invariant ids == Flatten(idsByLocation[..i])
    {
      assert idsByLocation[..i + 1][..i] == idsByLocation[..i];
      ids := ids + idsByLocation[i];
      i := i + 1;
    }
    assert idsByLocation[..i] == idsByLocation;
    cache' := cache.(sortedExplorations := Some(ids));
  }

  /** Once a non-empty list is cached, later calls return it whatever the queries would now give. */
  lemma CachedListIsReused(cache: CacheGroup, first: seq<seq<nat>>, later: seq<seq<nat>>)
    requires SortedExplorations(cache, first).0 != []
    ensures SortedExplorations(SortedExplorations(cache, first).1, later) == SortedExplorations(cache, first)
  {
  }

  /** An empty result is cached but is falsy, so the next call queries again. */
  lemma EmptyListIsRecomputed(cache: CacheGroup, first: seq<seq<nat>>, later: seq<seq<nat>>)
    requires SortedExplorations(cache, first).0 == []
    ensures SortedExplorations(SortedExplorations(cache, first).1, later).0 == Flatten(later)
  {
  }

  /** A published re:wild post, by its slug (post_name). */
  datatype RewildPost = RewildPost(id: nat, postName: string)

  /** Cached slugs are used only when the cached value is truthy and an array. */
  predicate SlugCacheHit(cache: CacheGroup) {
    cache.rewildSlugs.Some? && cache.rewildSlugs.value.SlugArray? && cache.rewildSlugs.value.slugs != []
  }

  /**
   * get_rewild_slugs: the cached slugs on a hit, otherwise the post names of the
   * queried re:wild posts, one per post and in order, which are then cached.
   */
  function RewildSlugs(cache: CacheGroup, rewildPosts: seq<RewildPost>): (r: (seq<string>, CacheGroup))
    ensures SlugCacheHit(cache) ==> r == (cache.rewildSlugs.value.slugs, cache)
    ensures !SlugCacheHit(cache) ==>
      && |r.0| == |rewildPosts|
      && (forall i :: 0 <= i < |rewildPosts| ==> r.0[i] == rewildPosts[i].postName)
      && r.1 == cache.(rewildSlugs := Some(SlugArray(r.0)))
  {
    if SlugCacheHit(cache) then (cache.rewildSlugs.value.slugs, cache)
    else
      var slugs := seq(|rewildPosts|, i requires 0 <= i < |rewildPosts| => rewildPosts[i].postName);
      (slugs, cache.(rewildSlugs := Some(SlugArray(slugs))))
  }

  /** A robots.txt rule: the user agent and the disallowed path. */
  datatype Rule = Disallow(userAgent: string, path: string)

  /** The Yoast robots.txt helper, which collects the rules it is given. */
  class RobotsTxtHelper {
    var rules: seq<Rule>

    constructor ()
      ensures rules == []
    {
      rules := [];
    }

    method AddDisallow(userAgent: string, path: string)
      modifies this
      ensures rules == old(rules) + [Disallow(userAgent, path)]
    {
      rules := rules + [Disallow(userAgent, path)];
    }
  }

  /** The rules for the given slugs: one `*` disallow of `/slug` each, in order. */
  function DisallowRules(slugs: seq<string>): (rules: seq<Rule>)
    ensures |rules| == |slugs|
    ensures forall i :: 0 <= i < |slugs| ==> rules[i] == Disallow("*", "/" + slugs[i])
  {
    seq(|slugs|, i requires 0 <= i < |slugs| => Disallow("*", "/" + slugs[i]))
  }

  /** Yoast register_robots_rules: a disallow rule for every re:wild slug, after the rules already there. */
  method AddDisallowForRewild(helper: RobotsTxtHelper, cache: CacheGroup, rewildPosts: seq<RewildPost>)
    returns (cache': CacheGroup)
    modifies helper
    ensures var (slugs, c) := RewildSlugs(cache, rewildPosts);
      cache' == c && helper.rules == old(helper.rules) + DisallowRules(slugs)
  {
    var slugs;
    slugs, cache' := RewildSlugs(cache, rewildPosts).0, RewildSlugs(cache, rewildPosts).1;
    var i := 0;
    while i < |slugs|
      invariant 0 <= i <= |slugs|
      invariant helper.rules == old(helper.rules) + DisallowRules(slugs[..i])
    {
      helper.AddDisallow("*", "/" + slugs[i]);
      assert DisallowRules(slugs[..i + 1]) == DisallowRules(slugs[..i]) + [Disallow("*", "/" + slugs[i])];
      i := i + 1;
    }
    assert slugs[..i] == slugs;
  }
}
