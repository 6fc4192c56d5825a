/**
 * The server side of the Map block (map-block/index.php): the marker data and
 * the location navigation that render_block derives from the Location terms and
 * their exploration posts, the data object handed to the front-end script, and
 * the body class filter. Term and post queries are inputs.
 */
module MapBlock {
  import opened Common
  import Text
  import PhpArray

  const RewildType := "rewild"
  const DefaultType := "exploration"
  const PostsPerLocation := 100

  /**
   * One post of a location's query (published explorations that have a
   * coordinates meta value, in the query's order): its permalink, id, title,
   * medium_large thumbnail URL, raw coordinates meta and the slugs of its
   * exploration-type terms.
   */
  datatype Post = Post(id: nat, href: string, title: string, thumb: string, coordinates: string, typeSlugs: seq<string>)

  /** A Location term with its coordinates meta and the result of its post query. */
  datatype LocationTerm = LocationTerm(id: nat, name: string, coordinates: string, posts: seq<Post>)

  /** get_terms: the Location terms in the order they are returned, or a WP_Error. */
  datatype LocationsResult = LocationsError | Locations(terms: seq<LocationTerm>)

  /**
   * One entry of the markers array. `lat` and `lng` are the text of the first and
   * second comma-separated parts of the post's coordinates ("" for a missing part).
   */
  datatype Marker = Marker(href: string, id: nat, lat: string, lng: string, thumb: string, title: string, typeSlug: string)

  datatype NavItem = NavItem(href: string, title: string)

  /** The `<ul class="posts js-location-accordion">` of a location and whether it is hidden. */
  datatype Accordion = Accordion(hidden: bool, items: seq<NavItem>)

  /** The `<li>` of a location: its name, its data-coordinates and its accordion if it has posts. */
  datatype ListItem = ListItem(termId: nat, name: string, coordinates: string, accordion: Option<Accordion>)

  /** What render_block produces: the navigation list (None when it is not emitted) and the markers. */
  datatype Rendered = Rendered(navigation: Option<seq<ListItem>>, markers: seq<Marker>)

  /** The marker type: the slug of the post's first exploration type, `exploration` when it has none. */
  function TypeOf(p: Post): (t: string)
    ensures p.typeSlugs == [] ==> t == DefaultType
    ensures p.typeSlugs != [] ==> t == p.typeSlugs[0]
  {
    if p.typeSlugs != [] then p.typeSlugs[0] else DefaultType
  }

  /** `$coordinates[$i]` after explode; a missing part reads as "" (both are 0 to floatval). */
  function CoordinatePart(parts: seq<string>, i: nat): string {
    if i < |parts| then parts[i] else ""
  }

  /**
   * The marker of a post: its link, id, thumbnail, title and type, with the
   * first two comma-separated parts of its coordinates as latitude and longitude.
   */
  function MarkerFor(p: Post): (m: Marker)
    ensures m.href == p.href && m.id == p.id && m.thumb == p.thumb && m.title == p.title
    ensures m.typeSlug == TypeOf(p)
    ensures var parts := Text.Split(p.coordinates, ',');
      && m.lat == parts[0]
      && m.lng == if |parts| >= 2 then parts[1] else ""
    ensures m.lng == "" || ',' in p.coordinates
  {
    var parts := Text.Split(p.coordinates, ',');
    Text.SplitSingle(p.coordinates, ',');
    Marker(p.href, p.id, CoordinatePart(parts, 0), CoordinatePart(parts, 1), p.thumb, p.title, TypeOf(p))
  }

  /** The markers of one location's posts, one per post and in query order. */
  function LocationMarkers(posts: seq<Post>): (ms: seq<Marker>)
    ensures |ms| == |posts|
    ensures forall j :: 0 <= j < |posts| ==> ms[j] == MarkerFor(posts[j])
  {
    seq(|posts|, j requires 0 <= j < |posts| => MarkerFor(posts[j]))
  }

  /** Whether a location is listed: its coordinates meta must be truthy. */
  predicate Listed(loc: LocationTerm) {
    StringTruthy(loc.coordinates)
  }

  /** The markers of all listed locations, in term order. */
  function AllMarkers(locs: seq<LocationTerm>): seq<Marker> {
    if locs == [] then []
    else
      var last := locs[|locs| - 1];
      AllMarkers(locs[..|locs| - 1]) + (if Listed(last) then LocationMarkers(last.posts) else [])
  }

  /** The navigation entries of a location's posts: every post that is not re:wild, in order. */
  function NavItems(posts: seq<Post>): seq<NavItem> {
    if posts == [] then []
    else
      var last := posts[|posts| - 1];
      NavItems(posts[..|posts| - 1]) + (if TypeOf(last) == RewildType then [] else [NavItem(last.href, last.title)])
  }

  function ItemFor(loc: LocationTerm): ListItem {
    ListItem(loc.id, loc.name, loc.coordinates,
      if loc.posts != [] then Some(Accordion(true, NavItems(loc.posts))) else None)
  }

  /** The list items of all listed locations, in term order. */
  function AllItems(locs: seq<LocationTerm>): seq<ListItem> {
    if locs == [] then []
    else
      var last := locs[|locs| - 1];
      AllItems(locs[..|locs| - 1]) + (if Listed(last) then [ItemFor(last)] else [])
  }

  /** The block's result: nothing is listed or marked when the terms are empty or an error. */
  function Render(locations: LocationsResult): Rendered {
    match locations
    case LocationsError => Rendered(None, [])
    case Locations(ts) => if ts == [] then Rendered(None, []) else Rendered(Some(AllItems(ts)), AllMarkers(ts))
  }

  /**
   * The while loop of render_block over one location's posts: each post appends
   * its marker, and each post that is not re:wild also appends a navigation entry.
   */
  method RenderPosts(markerData: seq<Marker>, posts: seq<Post>) returns (markerData': seq<Marker>, nav: seq<NavItem>)
    ensures markerData' == markerData + LocationMarkers(posts)
    ensures nav == NavItems(posts)
  {
    markerData', nav := markerData, [];
    var j := 0;
    while j < |posts|
      invariant 0 <= j <= |posts|
      invariant markerData' == markerData + LocationMarkers(posts[..j])
      invariant nav == NavItems(posts[..j])
    {
      assert posts[..j + 1][..j] == posts[..j];
      var p := posts[j];
      markerData' := markerData' + [MarkerFor(p)];
      assert LocationMarkers(posts[..j + 1]) == LocationMarkers(posts[..j]) + [MarkerFor(p)];
      j := j + 1;
      if TypeOf(p) == RewildType {
        continue;
      }
      nav := nav + [NavItem(p.href, p.title)];
    }
    assert posts[..j] == posts;
  }

  /**
   * render_block: a foreach over the locations that skips those without
   * coordinates, and for each a while over its posts that appends a marker for
   * every post and a navigation entry for every post that is not re:wild.
   */
  method RenderBlock(locations: LocationsResult) returns (r: Rendered)
    ensures r == Render(locations)
  {
    if locations.LocationsError? || locations.terms == [] {
      return Rendered(None, []);
    }
    var locs := locations.terms;
    var markerData: seq<Marker> := [];
    var items: seq<ListItem> := [];
    var i := 0;
    while i < |locs|
      invariant 0 <= i <= |locs|
      invariant markerData == AllMarkers(locs[..i])
      invariant items == AllItems(locs[..i])
    {
      var loc := locs[i];
      assert locs[..i + 1][..i] == locs[..i];
      if !StringTruthy(loc.coordinates) {
        i := i + 1;
        continue;
      }
      var nav;
      markerData, nav := RenderPosts(markerData, loc.posts);
      assert AllMarkers(locs[..i + 1]) == AllMarkers(locs[..i]) + LocationMarkers(loc.posts);
      var posts := loc.posts;
      var accordion := if posts != [] then Some(Accordion(true, nav)) else None;
      items := items + [ListItem(loc.id, loc.name, loc.coordinates, accordion)];
      i := i + 1;
    }
    assert locs[..i] == locs;
    r := Rendered(Some(items), markerData);
  }

  /** Where the markers of location `i` start: the number of markers before it. */
  function Offset(locs: seq<LocationTerm>, i: nat): nat
    requires i <= |locs|
  {
    |AllMarkers(locs[..i])|
  }

  /**
   * The markers are laid out location by location in term order: location `i`'s
   * markers, if it is listed, are exactly one per post of its query, in query order.
   */
  lemma {:induction false} MarkersByLocation(locs: seq<LocationTerm>, i: nat)
    requires i < |locs|
    ensures Offset(locs, i) + (if Listed(locs[i]) then |locs[i].posts| else 0) <= |AllMarkers(locs)|
    ensures Listed(locs[i]) ==>
      AllMarkers(locs)[Offset(locs, i)..Offset(locs, i) + |locs[i].posts|] == LocationMarkers(locs[i].posts)
    decreases |locs|
  {
    var init := locs[..|locs| - 1];
    if i == |locs| - 1 {
      assert locs[..i] == init;
    } else {
      MarkersByLocation(init, i);
      assert init[..i] == locs[..i];
      assert init[i] == locs[i];
      var a := AllMarkers(init);
      assert AllMarkers(locs)[..|a|] == a;
    }
  }

  /** A location without coordinates contributes neither a list item nor a marker. */
  lemma UnlistedLocationContributesNothing(locs: seq<LocationTerm>, loc: LocationTerm)
    requires !Listed(loc)
    ensures AllMarkers(locs + [loc]) == AllMarkers(locs)
    ensures AllItems(locs + [loc]) == AllItems(locs)
  {
    assert (locs + [loc])[..|locs|] == locs;
  }

  /** Every post yields exactly one marker: the markers count the posts of the listed locations. */
  function ListedPostCount(locs: seq<LocationTerm>): nat {
    if locs == [] then 0
    else
      var last := locs[|locs| - 1];
      ListedPostCount(locs[..|locs| - 1]) + (if Listed(last) then |last.posts| else 0)
  }

  lemma {:induction false} OneMarkerPerPost(locs: seq<LocationTerm>)
    ensures |AllMarkers(locs)| == ListedPostCount(locs)
  {
    if locs != [] {
      OneMarkerPerPost(locs[..|locs| - 1]);
    }
  }

  /** Re:wild posts are the ones left out of the navigation: the entries are the other posts, in order. */
  function NonRewild(posts: seq<Post>): seq<Post> {
    if posts == [] then []
    else
      var last := posts[|posts| - 1];
      NonRewild(posts[..|posts| - 1]) + (if TypeOf(last) == RewildType then [] else [last])
  }

  lemma {:induction false} NavItemsAreNonRewildPosts(posts: seq<Post>)
    ensures |NavItems(posts)| == |NonRewild(posts)|
    ensures forall k :: 0 <= k < |NavItems(posts)| ==>
      NavItems(posts)[k] == NavItem(NonRewild(posts)[k].href, NonRewild(posts)[k].title)
    ensures forall k :: 0 <= k < |NonRewild(posts)| ==> TypeOf(NonRewild(posts)[k]) != RewildType
  {
    if posts != [] {
      NavItemsAreNonRewildPosts(posts[..|posts| - 1]);
    }
  }

  /** A listed location's accordion exists exactly when it has posts, and it starts hidden. */
  lemma AccordionStartsHidden(loc: LocationTerm)
    requires Listed(loc)
    ensures ItemFor(loc).accordion.Some? <==> loc.posts != []
    ensures ItemFor(loc).accordion.Some? ==> ItemFor(loc).accordion.value.hidden
  {
  }

  /**
   * Each location's query asks for at most 100 posts ordered by title; whatever
   * order `le` the query sorts by, the location's markers keep it.
   */
  lemma MarkersKeepQueryOrder(locs: seq<LocationTerm>, i: nat, le: (string, string) -> bool)
    requires i < |locs| && Listed(locs[i])
    requires |locs[i].posts| <= PostsPerLocation
    requires forall j, k :: 0 <= j < k < |locs[i].posts| ==> le(locs[i].posts[j].title, locs[i].posts[k].title)
    ensures Offset(locs, i) + |locs[i].posts| <= |AllMarkers(locs)|
    ensures var ms := AllMarkers(locs)[Offset(locs, i)..Offset(locs, i) + |locs[i].posts|];
      && |ms| <= PostsPerLocation
      && forall j, k :: 0 <= j < k < |ms| ==> le(ms[j].title, ms[k].title)
  {
    MarkersByLocation(locs, i);
  }

  /** The value of one key of the injected data object. */
  datatype DataValue = Text(text: string) | Markers(markers: seq<Marker>)

  /** `JohanErnstMapBlockData`: the REST base URL, the markers and a REST nonce, in that order. */
  function InjectedData(apiURL: string, markers: seq<Marker>, nonce: string): (data: PhpArray.OrderedMap<DataValue>)
    ensures PhpArray.Keys(data) == ["apiURL", "markers", "nonce"]
    ensures PhpArray.Get(data, "apiURL") == Some(Text(apiURL))
    ensures PhpArray.Get(data, "markers") == Some(Markers(markers))
    ensures PhpArray.Get(data, "nonce") == Some(Text(nonce))
  {
    var data := [("apiURL", Text(apiURL)), ("markers", Markers(markers)), ("nonce", Text(nonce))];
    assert data[1..][1..] == [("nonce", Text(nonce))];
    assert PhpArray.Get(data[1..][1..], "nonce") == Some(Text(nonce));
    assert PhpArray.Get(data[1..], "nonce") == Some(Text(nonce));
    data
  }

  /** body_class: `has-map-block` is appended when the page holds the block, otherwise the classes pass through. */
  function AddBodyClass(classes: seq<string>, hasMapBlock: bool): (r: seq<string>)
    ensures hasMapBlock ==> r == classes + ["has-map-block"]
    ensures !hasMapBlock ==> r == classes
  {
    if hasMapBlock then classes + ["has-map-block"] else classes
  }

  /** The SVG symbols the block defines for markers to reference. */
  const MarkerSymbols: set<string> := {"map-marker-rewild", "map-marker-exploration"}
}
