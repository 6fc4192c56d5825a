# Map block, Exploration post type and Location taxonomy — a Dafny model

This project models the logic of a WordPress theme's interactive globe map. It covers four parts:

- **The front-end controller of the Map block.** It manages the introduction overlay and its deferred
  dismissal, the zoom buttons, and clicks on locations and markers. It also handles the modal
  that shows a re:wild post, which is fetched from the REST API and built the first time it is needed.
  The module is `GlobeController`, a class `Controller` holding the script's state, plus pure helpers.
- **The Map block's server-side rendering.** It turns the location terms and their posts into the
  navigation list and the marker data handed to the script. It also covers the `body_class` filter
  and the shape of the injected data object. The module is `MapBlock`.
- **The Exploration post type's request-time filters.** These are the archive query filter, the
  re:wild redirect decision, the related-posts filters, the cached list of explorations sorted by
  location, and the robots.txt rules for re:wild posts. The module is `Exploration`.
- **The Location taxonomy's admin and link filters.** These are the term list columns, the coordinates
  cell, the rewritten term link and the nonce choice of the save handler. The module is `Location`.

Three shared modules support them. `Common` has `Option` and PHP string truthiness. `Text` has
splitting on a separator and decimal rendering of ids. `PhpArray` has PHP arrays with string keys
as ordered key/value sequences, with `unset`, `$a[$k] = $v` and `array_merge`.

WordPress, globe.gl, the DOM, timers, local storage and the network are not modelled. Their
results enter as parameters: query results, the current hook, nonce verdicts and the parsed REST
response. An event the browser or a library delivers becomes a call of the matching
`Controller` method.

A few behaviours of the code are reproduced as they are written:

- A zoom click does not clamp the altitude.
- Two marker clicks before the response arrives issue two requests and append two modals.
  The id lookup then keeps finding the first one.
- Every opening of a modal attaches one more close-button listener, one more backdrop
  listener and one more Escape listener. An Escape listener is only detached by an Escape key press.

The request for a modal's content is built with the query string `?&_embed=wp:term&_fields=...`,
exactly as `map-block/view.js` writes it.

## Model

| member | source | states |
|---|---|---|
| `GlobeController.Controller.constructor` | map-block/view.js:88-92 | At load, a stored `loadingTextViewed` requests the dismissal at once and arms no timer. Otherwise only the 10-second timer is armed. Nothing is loaded and every accordion is hidden. |
| `GlobeController.Controller.RemoveIntroduction` | map-block/view.js:69-86 | Before the globe is ready it only sets the pending flag: no body class, no removal timer, no storage write. Afterwards it adds `introduction-dismissed`, arms one 2-second removal timer and stores `loadingTextViewed`. The invariant holds afterwards. |
| `GlobeController.Controller.IntroTimerElapsed` | map-block/view.js:91 | The 10-second timer disarms and performs exactly the `RemoveIntroduction` step. |
| `GlobeController.Controller.ClickAudioButton` | map-block/view.js:94-98 | A sound button click performs exactly the `RemoveIntroduction` step. |
| `GlobeController.Controller.RemovalTimerElapsed` | map-block/view.js:81-83 | The introduction element is gone. This only happens after `introduction-dismissed` was added, which the invariant shows. |
| `GlobeController.Controller.GlobeReady` | map-block/view.js:103-145 | The map is loaded for good, gets the `map-loaded` class and moves to altitude 3. A dismissal requested earlier is carried out now, and only then. |
| `GlobeController.ZoomInDisabled` | map-block/view.js:119-123 | The zoom-in button is disabled iff altitude ≤ 1. |
| `GlobeController.ZoomOutDisabled` | map-block/view.js:125-129 | The zoom-out button is disabled iff altitude ≥ 6. |
| `GlobeController.ZoomButtonsNeverBothDisabled` | map-block/view.js:111-130 | The two buttons are never disabled together, and strictly between the bounds both are enabled. |
| `GlobeController.Controller.Zoomed` | map-block/view.js:111-130 | A zoom event records the reported point of view. Once the globe is ready, the buttons' disabled states follow the two predicates; before that they are untouched. |
| `GlobeController.ZoomTarget` | map-block/view.js:228-250 | A zoom click asks for 0.5 less altitude when the target is `button-zoom-in` and 0.5 more otherwise. Latitude and longitude are kept. |
| `GlobeController.ZoomOutUndoesZoomIn` | map-block/view.js:231-248 | Zooming out after zooming in returns to the same point of view. |
| `GlobeController.ZoomClickIsNotClamped` | map-block/view.js:231-239 | Between altitude 1 and 1.5 the zoom-in button is enabled, yet its click asks for an altitude below the minimum, because nothing clamps it. |
| `GlobeController.Controller.ClickZoom` | map-block/view.js:138-140 | Before the globe is ready a zoom click changes nothing. Afterwards the camera goes to `ZoomTarget`. |
| `GlobeController.LocationTarget` | map-block/view.js:197-210 | There is no target iff the coordinates contain no comma, so they split into fewer than 2 parts. Otherwise the target is the parsed first and second parts at the current altitude. |
| `GlobeController.Controller.ClickLocation` | map-block/view.js:192-221 | Before the globe is ready the link is followed and nothing changes. With fewer than 2 coordinate parts nothing changes. Otherwise the camera moves to the target, every accordion except the link's next sibling is hidden, and the sibling's flag is toggled. At most one accordion is then shown (invariant). |
| `GlobeController.MarkerIcon` | map-block/view.js:404-430 | The icon uses the symbol `#map-marker-<type>`. A re:wild marker is 24×24 with viewBox 48×48; any other marker is 34×62 with viewBox 34×62. |
| `GlobeController.IconSymbolDefined` | map-block/view.js:419 | The symbol an icon refers to is one the block defines iff the type is `rewild` or `exploration`. The defined symbols come from map-block/index.php:182-190. |
| `GlobeController.MarkerDetails` | map-block/view.js:439-457 | The details carry the title. They carry the `url('<thumb>')` thumbnail iff the type is `exploration`. |
| `GlobeController.MarkerElementFor` | map-block/view.js:160-179 | The marker anchor has classes `map-marker` and the type, the post id as `data-post-id`, and the post's link. It gets the modal click handler iff the type is `rewild`. |
| `GlobeController.ModalId` | map-block/view.js:390 | A modal id is `post-`, then the decimal post id, then `-modal`. The id can be read back from it. |
| `GlobeController.ModalIdInjective` | map-block/view.js:253 | Different posts never share a modal id. |
| `GlobeController.FindModal` | map-block/view.js:253 | The id lookup finds the first modal in page order with that id. It finds none iff no modal has it. |
| `GlobeController.AppendedModalLookup` | map-block/view.js:392 | After a modal is appended, a modal already found under an id is still the one found. Otherwise the new modal is found exactly under its own id. |
| `GlobeController.FetchUrl` | map-block/view.js:261-265 | The request address is the API base, then `exploration/`, the decimal post id and the fixed `_embed`/`_fields` query. |
| `GlobeController.CopyImageAttributes` | map-block/view.js:360-379 | Setting attributes on an image: exactly the whitelisted attributes the featured image has with a non-empty value are set from it. Every other attribute of the image is kept. |
| `GlobeController.CreateModal` | map-block/view.js:340-395 | A modal is built iff the response has a featured image. It carries the id `ModalId(response id)`, the first term's name and link, the title, the content and the whitelist copy of the image attributes. It starts closed with no listeners. |
| `GlobeController.Controller.DisplayCardModal` | map-block/view.js:252-270 | If a modal with the post's id is in the page, it is reopened and no request is made. Otherwise one request for that post is added, even when one is already pending. |
| `GlobeController.Controller.ClickMarker` | map-block/view.js:174-176 | A re:wild marker shows its post's modal and is not followed. Any other marker is followed as a link and changes nothing. |
| `GlobeController.Controller.FetchResolved` | map-block/view.js:268-269 | The request leaves the pending list. Without a featured image nothing else happens. Otherwise exactly one modal is appended after the existing ones. It has the response's id, category name and link, title and content, and the whitelist copy of the image attributes. It is open with one close-button and one backdrop listener, and the id lookup now finds a modal for that post. |
| `GlobeController.Controller.OpenModal` | map-block/view.js:292-320 | Opening adds `has-open-modal`, shows the modal and attaches one more close-button listener, backdrop listener and Escape listener. |
| `GlobeController.Controller.CloseModal` | map-block/view.js:327-331 | Closing removes `has-open-modal` and closes that modal only. |
| `GlobeController.Controller.ClickCloseButton` | map-block/view.js:301 | A close-button click closes the modal. Every modal in the page has at least one such listener (invariant). |
| `GlobeController.Controller.ClickModal` | map-block/view.js:304-307 | A click closes the modal only when its target is the dialog itself. |
| `GlobeController.Controller.KeyDown` | map-block/view.js:309-317 | Escape, while handlers are attached, removes `has-open-modal` and detaches every handler. Any other key, or Escape with none attached, changes nothing. |
| `MapBlock.TypeOf` | map-block/index.php:138-144 | A marker's type is the slug of the post's first exploration type, or `exploration` when it has none. |
| `MapBlock.MarkerFor` | map-block/index.php:134-154 | A post's marker has the post's link, id, thumbnail and title and the type `TypeOf`. Its `lat` is the first comma-separated part of the coordinates. Its `lng` is the second part, or empty when there is no comma. |
| `MapBlock.LocationMarkers` | map-block/index.php:132-154 | A location's posts give one marker each, in query order. |
| `MapBlock.RenderPosts` | map-block/index.php:132-170 | The post loop appends exactly that location's markers, re:wild posts included. It emits the navigation entries of the posts that are not re:wild. |
| `MapBlock.RenderBlock` | map-block/index.php:54-240 | The block's output equals `Render`. An error or an empty term list emits no list and no markers. Unlisted locations are skipped. |
| `MapBlock.MarkersByLocation` | map-block/index.php:88-159 | The markers are laid out location by location in term order. A listed location's slice is exactly its posts' markers. |
| `MapBlock.UnlistedLocationContributesNothing` | map-block/index.php:89-93 | A location with an empty coordinates meta adds no list item and no marker. |
| `MapBlock.OneMarkerPerPost` | map-block/index.php:146-159 | The number of markers is the number of posts of the listed locations. |
| `MapBlock.NavItemsAreNonRewildPosts` | map-block/index.php:156-169 | The navigation entries are exactly the posts that are not re:wild, in order. |
| `MapBlock.AccordionStartsHidden` | map-block/index.php:128-130 | A listed location has an accordion iff it has posts, and the accordion starts hidden. |
| `MapBlock.MarkersKeepQueryOrder` | map-block/index.php:104-126 | If a location's query returns at most 100 posts in title order, its markers are at most 100 and in that order. The limit and the order are taken as premises: the query arguments that produce them are not modelled. |
| `MapBlock.InjectedData` | map-block/index.php:225-235 | The injected object has exactly the keys `apiURL`, `markers` and `nonce`, in that order, holding the given values. |
| `MapBlock.AddBodyClass` | map-block/index.php:274-280 | `has-map-block` is appended only when the block is on the page. Otherwise the classes are returned unchanged. |
| `Exploration.Query.Set` | post-type/exploration.php:128 | Setting a query variable changes that variable only. |
| `Exploration.Query.Get` | post-type/exploration.php:115 | An unset query variable reads as the empty string. |
| `Exploration.ExistingClauses` | post-type/exploration.php:117-119 | A tax_query that is not an array counts as no clauses. |
| `Exploration.FilterPreGetPosts` | post-type/exploration.php:110-134 | In the admin, for a secondary query or outside the exploration archive, nothing changes. Otherwise the existing clauses are kept and one `exploration-type`/`slug`/`rewild`/`NOT IN` clause is appended. `orderby` becomes `title` and `order` becomes `ASC`. Every other variable is unchanged. |
| `Exploration.RewildTerms` | post-type/exploration.php:88-93 | The filter keeps only `rewild` terms. |
| `Exploration.RewildTermsNonEmpty` | post-type/exploration.php:88-95 | The filtered list is non-empty iff some term has slug `rewild`. |
| `Exploration.RedirectRewild` | post-type/exploration.php:83-101 | The request is redirected iff the page is a single exploration and some term has slug `rewild`. An error or an empty term list means no redirect. |
| `Exploration.AllowInRelatedPosts` | post-type/exploration.php:145-149 | The input list is kept as a prefix and only `exploration` is appended. |
| `Exploration.ExcludeRewildPostsFromRelated` | post-type/exploration.php:158-181 | The input ids are kept as a prefix and the re:wild ids are appended in order. |
| `Exploration.InFlatten` | post-type/exploration.php:236-257 | An id is in the accumulated list iff it is in some location's list. |
| `Exploration.SortedExplorations` | post-type/exploration.php:219-264 | A truthy cached list is returned with the cache untouched. Otherwise the concatenation of the per-location lists is returned and stored. |
| `Exploration.GetSortedExplorations` | post-type/exploration.php:219-264 | The accumulating loop returns exactly `SortedExplorations`: the same list and the same cache. |
| `Exploration.CachedListIsReused` | post-type/exploration.php:221-225 | Once a non-empty list is cached, later calls return it whatever the queries now give. |
| `Exploration.EmptyListIsRecomputed` | post-type/exploration.php:221-225 | An empty result is stored but is falsy, so the next call recomputes it. |
| `Exploration.RewildSlugs` | post-type/exploration.php:271-306 | The cache is used only when its value is truthy and an array. Otherwise the slugs are the posts' names, one per post and in order, and they are cached. |
| `Exploration.RobotsTxtHelper.AddDisallow` | post-type/exploration.php:320 | The helper appends one rule. |
| `Exploration.DisallowRules` | post-type/exploration.php:319-321 | There is one `*` disallow rule for `/<slug>` per slug, in order. |
| `Exploration.AddDisallowForRewild` | post-type/exploration.php:316-323 | Exactly `DisallowRules` of the re:wild slugs is appended after the helper's existing rules. The cache is updated as `RewildSlugs` says. |
| `Location.AddCoordinateColumn` | taxonomy/location.php:172-191 | On `edit-tags` the columns start with `cb`, `name` and `coords`, and all other columns follow in their original order with no key repeated. An existing `coords` keeps its value but moves to third place. On any other screen the columns are unchanged. |
| `Location.DisplayCoordinateColumn` | taxonomy/location.php:202-206 | The content is unchanged unless the column is `coords`, whose cell is the term's coordinates. |
| `Location.AddQueryArg` | taxonomy/location.php:225 | The argument is set to the value, other arguments and the address are unchanged, and keys stay distinct. |
| `Location.FilterTermLink` | taxonomy/location.php:217-228 | A non-location link is unchanged. A location link is the press page on the press page, else the exploration archive, with `locationId` set to the term id and the base's other arguments kept. |
| `Location.LocationIdsDistinguishTerms` | taxonomy/location.php:222-225 | Two location terms with different ids never get the same link. |
| `Location.NonceFor` | taxonomy/location.php:150-154 | On creation the `add-tag` nonce is checked in `_wpnonce_add-tag`. Otherwise `update-tag_<id>` is checked in `_wpnonce`. |
| `Location.EditNonceIsPerTerm` | taxonomy/location.php:153 | Two terms never share an edit nonce action. |
| `Location.SaveTermFields` | taxonomy/location.php:149-163 | A rejected nonce ends the request. Without posted coordinates nothing is stored. Otherwise exactly the sanitized coordinates are stored under the term's `coordinates` meta. |
| `PhpArray.Get` | taxonomy/location.php:174-175 | Reading a key gives nothing iff the key is absent, and otherwise the value stored under it. |
| `PhpArray.Unset` | taxonomy/location.php:177-178 | After `unset` the key is absent, every other key reads as before, and distinct keys stay distinct. The result is the array's other entries in their order. |
| `PhpArray.PutGet` | taxonomy/location.php:225 | After `$a[$k] = $v`, `$k` reads `$v` and every other key reads as before. |
| `PhpArray.MergeShape` | taxonomy/location.php:180-187 | `array_merge` of arrays with string keys keeps the first array's keys in place with the later values, then appends the second array's new keys in order. Keys stay distinct. |
| `Text.Split` | map-block/view.js:197 | Splitting gives one more part than there are separators, and no part contains one. |
| `Text.JoinSplit` | map-block/index.php:136 | Splitting loses nothing: joining the parts gives the input back. |
| `Text.NatToStringInjective` | taxonomy/location.php:225 | Different ids have different decimal renderings. |

## Left out

- globe.gl's rendering, the camera animation and its durations, and the resize handler are not modelled. The point of view is a plain record. `Zoomed` stands for the library reporting a camera change, and the library's own clamping through the minimum and maximum camera distance (200 and 700) is not modelled.
- `fetch`, JSON decoding, `DOMParser` and template cloning are not modelled. The response is a `PostResponse` record. Its `featuredImage` holds the attributes of the parsed image, or nothing when `featured_image` is empty. A response without an embedded term is not modelled: `category` is always present.
- `setTimeout` and `localStorage` are events and booleans. The 500 ms and 300 ms animation times are not modelled.
- `GlobeController.LocationTarget`: `parseFloat` is the parameter `parse`, so NaN and other numeric edge cases are not modelled.
- `MapBlock.MarkerFor`: a marker's `lat` and `lng` are the raw comma-separated parts of the post's coordinates (an empty string when missing). The `floatval`/`trim` numeric normalisation is not modelled.
- The focus on the close button and the browser's own closing of a `<dialog>` on Escape are not modelled. After `KeyDown` the modal's `open` flag is unchanged; only the class and the handlers change.
- The browser does not dispatch clicks to disabled zoom buttons. `ClickZoom` does not look at the disabled flags. The zoom controls' markup is not part of this model, so the buttons start enabled.
- WP_Query, get_terms, get_term_meta, wp_get_post_terms, wp_cache_get/set, wp_safe_redirect, check_admin_referer, sanitize_text_field and the Yoast robots.txt helper are not modelled. Their results are parameters, and their effects are results: the cache group and the `SaveOutcome`.
- `Exploration.FilterPreGetPosts`: a `tax_query` is a flat list of clauses. The `relation` key and nested clause groups are not modelled. Under `'relation' => 'OR'` the appended `NOT IN` clause would no longer keep re:wild posts out, and the model cannot show that.
- `Exploration.SortedExplorations`: an error from get_terms is not modelled. The locations are given as their per-location id lists.
- `Location.AddQueryArg`: URL encoding, fragments and removing an argument are not modelled. A link is an address plus ordered query arguments.
- `PhpArray.MergeShape`: only string keys are modelled. PHP renumbers numeric keys, and no column key here is numeric.
- The registrations (post type, taxonomies, term meta, REST field, block), script enqueueing, the audio tag, `get_featured_image` and `handle_frontend_assets` are framework configuration and are not modelled.
- The HTML markup of render_block and the admin form fields are presentation, except for what the model keeps of it: the list items, accordions, markers and SVG symbols.
- map-block/index.js is not part of this model: it is an editor user interface component.
- taxonomy/exploration-type.php is not part of this model: it is only a registration plus a link filter.
