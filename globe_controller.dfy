/**
 * The front-end controller of the Map block (map-block/view.js): the
 * introduction overlay and its dismissal, the zoom buttons, the location
 * navigation, the markers placed on the globe and the post modals fetched on
 * demand. The globe library, the DOM, timers, local storage and the network are
 * outside the model: what they do to the controller arrives as calls of the
 * event methods of `Controller`.
 */
module GlobeController {
  import opened Common
  import Text
  import MapBlock

  const DefaultAltitude: real := 3.0
  const AltitudeIncrement: real := 0.5
  const MinAltitude: real := 1.0
  const MaxAltitude: real := 6.0

  const IntroductionDismissedClass := "introduction-dismissed"
  const MapLoadedClass := "map-loaded"
  const HasOpenModalClass := "has-open-modal"
  const ZoomInButtonClass := "button-zoom-in"

  /** The globe's point of view. */
  datatype View = View(lat: real, lng: real, altitude: real)

  // ---------------------------------------------------------------- zoom

  /** The zoom-in button's state after a zoom event: disabled at or below the minimum altitude. */
  function ZoomInDisabled(altitude: real): (disabled: bool)
    ensures disabled <==> altitude <= MinAltitude
  {
    if altitude > MinAltitude then false else true
  }

  /** The zoom-out button's state after a zoom event: disabled at or above the maximum altitude. */
  function ZoomOutDisabled(altitude: real): (disabled: bool)
    ensures disabled <==> altitude >= MaxAltitude
  {
    if altitude < MaxAltitude then false else true
  }

  /** Between the bounds both buttons are enabled, and they are never disabled together. */
  lemma ZoomButtonsNeverBothDisabled(altitude: real)
    ensures !(ZoomInDisabled(altitude) && ZoomOutDisabled(altitude))
    ensures MinAltitude < altitude < MaxAltitude ==> !ZoomInDisabled(altitude) && !ZoomOutDisabled(altitude)
  {
  }

  /**
   * The point of view a zoom click asks for: half a unit lower for the zoom-in
   * button, half a unit higher for any other target, at the same place.
   */
  function ZoomTarget(current: View, targetClasses: set<string>): (target: View)
    ensures target.lat == current.lat && target.lng == current.lng
    ensures ZoomInButtonClass in targetClasses ==> target.altitude == current.altitude - AltitudeIncrement
    ensures ZoomInButtonClass !in targetClasses ==> target.altitude == current.altitude + AltitudeIncrement
  {
    if ZoomInButtonClass in targetClasses then
      View(current.lat, current.lng, current.altitude - AltitudeIncrement)
    else
      View(current.lat, current.lng, current.altitude + AltitudeIncrement)
  }

  /** A zoom in followed by a zoom out comes back to the same point of view. */
  lemma ZoomOutUndoesZoomIn(v: View, other: set<string>)
    requires ZoomInButtonClass !in other
    ensures ZoomTarget(ZoomTarget(v, {ZoomInButtonClass}), other) == v
  {
  }

  /**
   * The click itself does not clamp: just above the minimum the zoom-in button
   * is enabled, yet its click asks for an altitude below the minimum.
   */
  lemma ZoomClickIsNotClamped(v: View)
    requires MinAltitude < v.altitude < MinAltitude + AltitudeIncrement
    ensures !ZoomInDisabled(v.altitude)
    ensures ZoomTarget(v, {ZoomInButtonClass}).altitude < MinAltitude
    ensures ZoomInDisabled(ZoomTarget(v, {ZoomInButtonClass}).altitude)
  {
  }

  // ---------------------------------------------------------------- location navigation

  /**
   * Where a location click sends the camera: None when the coordinates do not
   * split into at least two parts, otherwise the parsed latitude and longitude
   * at the current altitude. `parse` stands for parseFloat.
   */
  function LocationTarget(coordinates: string, parse: string -> real, current: View): (target: Option<View>)
    ensures target.None? <==> ',' !in coordinates
    ensures target.Some? ==> |Text.Split(coordinates, ',')| >= 2
    ensures target.Some? ==>
      var parts := Text.Split(coordinates, ',');
      target.value == View(parse(parts[0]), parse(parts[1]), current.altitude)
  {
    var parts := Text.Split(coordinates, ',');
    Text.SplitSingle(coordinates, ',');
    if |parts| < 2 then None else Some(View(parse(parts[0]), parse(parts[1]), current.altitude))
  }

  /** At most one accordion is shown. */
  predicate AtMostOneShown(hidden: seq<bool>) {
    forall i, j :: 0 <= i < |hidden| && 0 <= j < |hidden| && !hidden[i] && !hidden[j] ==> i == j
  }

  // ---------------------------------------------------------------- markers

  /** The marker SVG: the symbol it uses, its viewBox `0 0 w h` and its size. */
  datatype Icon = Icon(href: string, viewBoxWidth: nat, viewBoxHeight: nat, width: nat, height: nat)

  /** getMarkerIcon: re:wild markers are a 24x24 circle, all others a 34x62 pin. */
  function MarkerIcon(typeSlug: string): (icon: Icon)
    ensures icon.href == "#map-marker-" + typeSlug
    ensures typeSlug == MapBlock.RewildType ==>
      icon.viewBoxWidth == 48 && icon.viewBoxHeight == 48 && icon.width == 24 && icon.height == 24
    ensures typeSlug != MapBlock.RewildType ==>
      icon.viewBoxWidth == 34 && icon.viewBoxHeight == 62 && icon.width == 34 && icon.height == 62
  {
    var isRewild := MapBlock.RewildType == typeSlug;
    Icon("#map-marker-" + typeSlug,
      if isRewild then 48 else 34, if isRewild then 48 else 62,
      if isRewild then 24 else 34, if isRewild then 24 else 62)
  }

  /** A marker's icon refers to a symbol the block defines exactly for the `rewild` and `exploration` types. */
  lemma IconSymbolDefined(typeSlug: string)
    ensures MarkerIcon(typeSlug).href[1..] in MapBlock.MarkerSymbols
      <==> typeSlug == MapBlock.RewildType || typeSlug == MapBlock.DefaultType
  {
    var p := "map-marker-";
    var href := MarkerIcon(typeSlug).href;
    assert href[1..] == p + typeSlug;
    if href[1..] == "map-marker-rewild" {
      assert typeSlug == (p + typeSlug)[|p|..] == "map-marker-rewild"[|p|..];
    }
    if href[1..] == "map-marker-exploration" {
      assert typeSlug == (p + typeSlug)[|p|..] == "map-marker-exploration"[|p|..];
    }
  }

  /** The details block of a marker: the thumbnail CSS value and the title. */
  datatype Details = Details(thumbnail: Option<string>, title: string)

  /** getMarkerDetails: only `exploration` markers show their thumbnail. */
  function MarkerDetails(m: MapBlock.Marker): (d: Details)
    ensures d.title == m.title
    ensures d.thumbnail.Some? <==> m.typeSlug == MapBlock.DefaultType
    ensures d.thumbnail.Some? ==> d.thumbnail.value == "url('" + m.thumb + "')"
  {
    Details(if MapBlock.DefaultType == m.typeSlug then Some("url('" + m.thumb + "')") else None, m.title)
  }

  /** The anchor built for a marker on the globe. */
  datatype MarkerElement = MarkerElement(
    classes: seq<string>, dataType: string, dataPostId: string, href: string,
    icon: Icon, details: Details, opensModal: bool)

  /** The htmlElement callback: the anchor for a marker; only re:wild markers get the modal click handler. */
  function MarkerElementFor(m: MapBlock.Marker): (e: MarkerElement)
    ensures e.classes == ["map-marker", m.typeSlug] && e.dataType == m.typeSlug && e.href == m.href
    ensures e.dataPostId == Text.NatToString(m.id)
    ensures e.icon == MarkerIcon(m.typeSlug) && e.details == MarkerDetails(m)
    ensures e.opensModal <==> m.typeSlug == MapBlock.RewildType
  {
    MarkerElement(["map-marker", m.typeSlug], m.typeSlug, Text.NatToString(m.id), m.href,
      MarkerIcon(m.typeSlug), MarkerDetails(m), MapBlock.RewildType == m.typeSlug)
  }

  // ---------------------------------------------------------------- modals

  /** The element id of a post's modal. */
  function ModalId(postId: nat): (id: string)
    ensures |id| == 11 + |Text.NatToString(postId)|
    ensures id[..5] == "post-" && id[|id| - 6..] == "-modal"
    ensures id[5..|id| - 6] == Text.NatToString(postId)
  {
    "post-" + Text.NatToString(postId) + "-modal"
  }

  /** Different posts have different modal ids. */
  lemma ModalIdInjective(a: nat, b: nat)
    requires ModalId(a) == ModalId(b)
    ensures a == b
  {
    Text.NatToStringInjective(a, b);
  }

  const FetchParams := "?&_embed=wp:term&_fields=content,featured_image,id,title,_embedded"

  /** The REST request for a post's modal content. */
  function FetchUrl(apiURL: string, postId: nat): (url: string)
    ensures |url| >= |apiURL|
    ensures url[..|apiURL|] == apiURL
    ensures url[|apiURL|..] == "exploration/" + Text.NatToString(postId) + FetchParams
  {
    apiURL + "exploration" + "/" + Text.NatToString(postId) + FetchParams
  }

  /** The image attributes copied from the featured image into the modal. */
  const ImageAttributes := ["width", "height", "src", "class", "alt", "decoding", "loading", "srcset", "sizes"]

  /** Whether attribute `k` of the featured image is copied when the names `names` are copied: listed, present and non-empty. */
  predicate CopiedAmong(featured: map<string, string>, names: seq<string>, k: string) {
    k in names && k in featured && featured[k] != ""
  }

  /** `result` is `image` with every attribute of `featured` copied among `names` set on it, and nothing else changed. */
  ghost predicate CopiedInto(featured: map<string, string>, names: seq<string>, image: map<string, string>, result: map<string, string>) {
    && (forall k :: k in result <==> k in image || CopiedAmong(featured, names, k))
    && (forall k :: k in result ==> result[k] == if CopiedAmong(featured, names, k) then featured[k] else image[k])
  }

  /** The whitelist copy of createModal. */
  ghost predicate WhitelistCopy(featured: map<string, string>, image: map<string, string>, result: map<string, string>) {
    CopiedInto(featured, ImageAttributes, image, result)
  }

  /** Copying one more name keeps the copy exact. */
  lemma CopyOneMore(featured: map<string, string>, names: seq<string>, att: string,
                    image: map<string, string>, result: map<string, string>)
    requires CopiedInto(featured, names, image, result)
    ensures att in featured && featured[att] != "" ==>
      CopiedInto(featured, names + [att], image, result[att := featured[att]])
    ensures !(att in featured && featured[att] != "") ==>
      CopiedInto(featured, names + [att], image, result)
  {
  }

  /** The attribute loop of createModal. */
  method CopyImageAttributes(featured: map<string, string>, image: map<string, string>) returns (result: map<string, string>)
    ensures WhitelistCopy(featured, image, result)
  {
    result := image;
    var i := 0;
    assert ImageAttributes[..0] == [];
    while i < |ImageAttributes|
      invariant 0 <= i <= |ImageAttributes|
      invariant CopiedInto(featured, ImageAttributes[..i], image, result)
    {
      var att := ImageAttributes[i];
      assert ImageAttributes[..i + 1] == ImageAttributes[..i] + [att];
      CopyOneMore(featured, ImageAttributes[..i], att, image, result);
      var value := if att in featured then featured[att] else "";
      if value != "" {
        result := result[att := value];
      }
      i := i + 1;
    }
    assert ImageAttributes[..i] == ImageAttributes;
  }

  /** The parts of the REST response the modal uses: the first embedded term, title, content and featured image. */
  datatype Category = Category(name: string, link: string)
  datatype PostResponse = PostResponse(
    id: nat, title: string, content: string,
    featuredImage: Option<map<string, string>>,  // the attributes of the parsed image; None for an empty featured_image
    category: Category)

  /** A modal dialog in the page, with the number of close-button and backdrop listeners attached to it. */
  datatype Modal = Modal(
    id: string, categoryName: string, categoryLink: string, title: string,
    image: map<string, string>, content: string,
    open: bool, closeListeners: nat, backdropListeners: nat)

  /** An unanswered request for a post's modal content. */
  datatype Fetch = Fetch(postId: nat, url: string, nonce: string)

  /**
   * createModal: a modal filled from the response, with the image attributes
   * copied through the whitelist, under the id of the response's post. Without a
   * featured image there is no element to read attributes from and no modal results.
   */
  method CreateModal(data: PostResponse) returns (modal: Option<Modal>)
    ensures modal.None? <==> data.featuredImage.None?
    ensures modal.Some? ==>
      var m := modal.value;
      && m.id == ModalId(data.id)
      && m.categoryName == data.category.name && m.categoryLink == data.category.link
      && m.title == data.title && m.content == data.content
      && WhitelistCopy(data.featuredImage.value, map[], m.image)
      && !m.open && m.closeListeners == 0 && m.backdropListeners == 0
  {
    if data.featuredImage.None? {
      return None;
    }
    var image := CopyImageAttributes(data.featuredImage.value, map[]);
    modal := Some(Modal(ModalId(data.id), data.category.name, data.category.link, data.title,
      image, data.content, false, 0, 0));
  }

  /** document.querySelector by id: the first modal in page order with that id. */
  function FindModal(modals: seq<Modal>, id: string): (r: Option<nat>)
    ensures r.Some? ==> r.value < |modals| && modals[r.value].id == id
    ensures r.Some? ==> forall j :: 0 <= j < r.value ==> modals[j].id != id
    ensures r.None? ==> forall j :: 0 <= j < |modals| ==> modals[j].id != id
  {
    if modals == [] then None
    else if modals[0].id == id then Some(0)
    else match FindModal(modals[1..], id)
      case Some(k) => Some(k + 1)
      case None => None
  }

  /**
   * Appending a modal to the page: a modal already found under `id` keeps being
   * the one found, so a duplicate is never reached; otherwise the new modal is
   * found exactly when it carries `id`.
   */
  lemma {:induction false} AppendedModalLookup(modals: seq<Modal>, m: Modal, id: string)
    ensures FindModal(modals, id).Some? ==> FindModal(modals + [m], id) == FindModal(modals, id)
    ensures FindModal(modals, id).None? ==>
      FindModal(modals + [m], id) == if m.id == id then Some(|modals|) else None
  {
    if modals != [] {
      assert (modals + [m])[1..] == modals[1..] + [m];
      AppendedModalLookup(modals[1..], m, id);
    }
  }

  /** What openModal does to a modal: shows it and attaches one more close-button and backdrop listener. */
  function Opened(m: Modal): Modal {
    m.(open := true, closeListeners := m.closeListeners + 1, backdropListeners := m.backdropListeners + 1)
  }

  /** An opened modal has as many backdrop listeners as close-button listeners, and at least one. */
  predicate ListenersPaired(m: Modal) {
    m.closeListeners >= 1 && m.closeListeners == m.backdropListeners
  }

  // ---------------------------------------------------------------- the controller

  class Controller {
    const apiURL: string
    const nonce: string
    /** The `hidden` flags of the location accordions, in page order. */
    const accordions: array<bool>

    /** The `loadingTextViewed` entry of local storage. */
    var loadingTextViewed: bool
    var isIntroductionDismissed: bool
    var isMapLoaded: bool
    /** The 10-second dismissal timer set at load. */
    var introTimerArmed: bool
    /** The 2-second timers that remove the introduction element. */
    var removalTimers: nat
    /** Whether the introduction element is still in the page. */
    var introductionPresent: bool
    var bodyClasses: set<string>
    var view: View
    var zoomInDisabled: bool
    var zoomOutDisabled: bool
    /** The modals appended to the block, in page order. */
    var modals: seq<Modal>
    var fetches: seq<Fetch>
    /** The Escape keydown listeners on the document. */
    var escapeHandlers: nat

    ghost predicate Valid()
      reads this, accordions
    {
      && IntroductionConsistent()
      && DismissalCarriedOut()
      && AtMostOneShown(accordions[..])
      && ModalsListened()
    }

    /** The introduction's flags, timers and body classes agree. */
    ghost predicate IntroductionConsistent()
      reads this
    {
      && (isMapLoaded <==> MapLoadedClass in bodyClasses)
      && (!isMapLoaded ==> IntroductionDismissedClass !in bodyClasses && removalTimers == 0)
      && (IntroductionDismissedClass in bodyClasses ==> loadingTextViewed)
      && (removalTimers > 0 || !introductionPresent ==> IntroductionDismissedClass in bodyClasses)
    }

    /** Once the globe is ready, a requested dismissal has been carried out. */
    ghost predicate DismissalCarriedOut()
      reads this
    {
      isMapLoaded && isIntroductionDismissed ==> IntroductionDismissedClass in bodyClasses
    }

    /** Every modal in the page has been opened, so it has paired close listeners. */
    ghost predicate ModalsListened()
      reads this
    {
      forall k :: 0 <= k < |modals| ==> ListenersPaired(modals[k])
    }

    /**
     * The script's load: the page's data, whether local storage already says the
     * introduction was viewed, and the accordions, all hidden as rendered.
     */
    constructor (apiURL: string, nonce: string,
                 storedViewed: bool, accordionCount: nat, initialView: View)
      ensures Valid()
      ensures this.apiURL == apiURL && this.nonce == nonce
      ensures fresh(accordions) && accordions.Length == accordionCount
      ensures forall i :: 0 <= i < accordionCount ==> accordions[i]
      ensures !isMapLoaded && introductionPresent && bodyClasses == {} && view == initialView
      ensures loadingTextViewed == storedViewed
      ensures isIntroductionDismissed == storedViewed && introTimerArmed == !storedViewed
      ensures removalTimers == 0 && modals == [] && fetches == [] && escapeHandlers == 0
      ensures !zoomInDisabled && !zoomOutDisabled
    {
      this.apiURL := apiURL;
      this.nonce := nonce;
      accordions := new bool[accordionCount](_ => true);
      loadingTextViewed := storedViewed;
      isIntroductionDismissed := false;
      isMapLoaded := false;
      introTimerArmed := false;
      removalTimers := 0;
      introductionPresent := true;
      bodyClasses := {};
      view := initialView;
      zoomInDisabled, zoomOutDisabled := false, false;
      modals, fetches, escapeHandlers := [], [], 0;
      new;
      if storedViewed {
        RemoveIntroduction();
      } else {
        introTimerArmed := true;
      }
    }

    /** What removeIntroduction does: before the globe is ready only the request is recorded. */
    twostate predicate IntroductionRemovalStep()
      reads this
    {
      if !old(isMapLoaded) then
        && isIntroductionDismissed
        && bodyClasses == old(bodyClasses)
        && removalTimers == old(removalTimers)
        && loadingTextViewed == old(loadingTextViewed)
      else
        && isIntroductionDismissed == old(isIntroductionDismissed)
        && bodyClasses == old(bodyClasses) + {IntroductionDismissedClass}
        && removalTimers == old(removalTimers) + 1
        && loadingTextViewed
    }

    /** removeIntroduction. */
    method RemoveIntroduction()
      requires IntroductionConsistent() && AtMostOneShown(accordions[..]) && ModalsListened()
      modifies this`isIntroductionDismissed, this`bodyClasses, this`removalTimers, this`loadingTextViewed
      ensures Valid()
      ensures IntroductionRemovalStep()
    {
      if !isMapLoaded {
        isIntroductionDismissed := true;
        return;
      }
      bodyClasses := bodyClasses + {IntroductionDismissedClass};
      removalTimers := removalTimers + 1;
      loadingTextViewed := true;
    }

    /** The 10-second timer fires. */
    method IntroTimerElapsed()
      requires Valid() && introTimerArmed
      modifies this`introTimerArmed, this`isIntroductionDismissed, this`bodyClasses, this`removalTimers, this`loadingTextViewed
      ensures Valid() && !introTimerArmed
      ensures IntroductionRemovalStep()
    {
      introTimerArmed := false;
      RemoveIntroduction();
    }

    /** A sound on/off button of the introduction is clicked. */
    method ClickAudioButton()
      requires Valid() && introductionPresent
      modifies this`isIntroductionDismissed, this`bodyClasses, this`removalTimers, this`loadingTextViewed
      ensures Valid()
      ensures IntroductionRemovalStep()
    {
      RemoveIntroduction();
    }

    /** A 2-second timer fires and the introduction element is removed. */
    method RemovalTimerElapsed()
      requires Valid() && removalTimers > 0
      modifies this`removalTimers, this`introductionPresent
      ensures Valid()
      ensures removalTimers == old(removalTimers) - 1 && !introductionPresent
    {
      removalTimers := removalTimers - 1;
      introductionPresent := false;
    }

    /**
     * handleGlobeReady: the map counts as loaded from now on, the camera goes to
     * the default altitude, and a dismissal requested earlier is carried out.
     */
    method GlobeReady()
      requires Valid() && !isMapLoaded
      modifies this`isMapLoaded, this`view, this`bodyClasses, this`isIntroductionDismissed,
               this`removalTimers, this`loadingTextViewed
      ensures Valid() && isMapLoaded
      ensures view == old(view).(altitude := DefaultAltitude)
      ensures isIntroductionDismissed == old(isIntroductionDismissed)
      ensures old(isIntroductionDismissed) ==>
        bodyClasses == old(bodyClasses) + {MapLoadedClass, IntroductionDismissedClass}
        && removalTimers == 1 && loadingTextViewed
      ensures !old(isIntroductionDismissed) ==>
        bodyClasses == old(bodyClasses) + {MapLoadedClass}
        && removalTimers == 0 && loadingTextViewed == old(loadingTextViewed)
    {
      isMapLoaded := true;
      view := view.(altitude := DefaultAltitude);
      bodyClasses := bodyClasses + {MapLoadedClass};
      if isIntroductionDismissed {
        RemoveIntroduction();
      }
    }

    /** The globe reports a camera change; the buttons follow it once the listener is attached. */
    method Zoomed(reported: View)
      requires Valid()
      modifies this`view, this`zoomInDisabled, this`zoomOutDisabled
      ensures Valid() && view == reported
      ensures isMapLoaded ==>
        zoomInDisabled == (reported.altitude <= MinAltitude) && zoomOutDisabled == (reported.altitude >= MaxAltitude)
      ensures !isMapLoaded ==> zoomInDisabled == old(zoomInDisabled) && zoomOutDisabled == old(zoomOutDisabled)
    {
      view := reported;
      if isMapLoaded {
        zoomInDisabled := ZoomInDisabled(reported.altitude);
        zoomOutDisabled := ZoomOutDisabled(reported.altitude);
      }
    }

    /** A zoom button is clicked (it has a listener only once the globe is ready). */
    method ClickZoom(targetClasses: set<string>)
      requires Valid()
      modifies this`view
      ensures Valid()
      ensures isMapLoaded ==> view == ZoomTarget(old(view), targetClasses)
      ensures !isMapLoaded ==> view == old(view)
    {
      if isMapLoaded {
        view := ZoomTarget(view, targetClasses);
      }
    }

    /**
     * A location link is clicked. Before the globe is ready there is no listener
     * and the browser follows the link. Afterwards, coordinates with at least
     * two parts move the camera there and toggle the link's own accordion
     * (`sibling`, its next element) while hiding every other one.
     */
    method ClickLocation(coordinates: string, parse: string -> real, sibling: Option<nat>) returns (followsLink: bool)
      requires Valid()
      modifies this`view, accordions
      ensures Valid()
      ensures followsLink == !isMapLoaded
      ensures !isMapLoaded || ',' !in coordinates ==> view == old(view) && accordions[..] == old(accordions[..])
      ensures isMapLoaded && ',' in coordinates ==>
        && view == LocationTarget(coordinates, parse, old(view)).value
        && forall i :: 0 <= i < accordions.Length ==>
             accordions[i] == if sibling == Some(i) then !old(accordions[i]) else true
    {
      if !isMapLoaded {
        return true;
      }
      followsLink := false;
      var target := LocationTarget(coordinates, parse, view);
      if target.None? {
        return;
      }
      view := target.value;
      var i := 0;
      while i < accordions.Length
        invariant 0 <= i <= accordions.Length
        invariant forall k :: 0 <= k < i ==> accordions[k] == if sibling == Some(k) then !old(accordions[k]) else true
        invariant forall k :: i <= k < accordions.Length ==> accordions[k] == old(accordions[k])
        invariant view == target.value
      {
        if sibling != Some(i) {
          accordions[i] := true;
        } else {
          accordions[i] := !accordions[i];
        }
        i := i + 1;
      }
    }

    /** What displayCardModal does: reopen the post's modal if the page has one, otherwise request it. */
    twostate predicate CardDisplayed(postId: nat)
      reads this
    {
      match FindModal(old(modals), ModalId(postId))
      case Some(k) =>
        && fetches == old(fetches)
        && modals == old(modals)[k := Opened(old(modals)[k])]
        && bodyClasses == old(bodyClasses) + {HasOpenModalClass}
        && escapeHandlers == old(escapeHandlers) + 1
      case None =>
        && fetches == old(fetches) + [Fetch(postId, FetchUrl(apiURL, postId), nonce)]
        && modals == old(modals)
        && bodyClasses == old(bodyClasses)
        && escapeHandlers == old(escapeHandlers)
    }

    /** displayCardModal. */
    method DisplayCardModal(postId: nat)
      requires Valid()
      modifies this`modals, this`fetches, this`bodyClasses, this`escapeHandlers
      ensures Valid()
      ensures CardDisplayed(postId)
    {
      var found := FindModal(modals, ModalId(postId));
      if found.Some? {
        OpenModal(found.value);
        return;
      }
      fetches := fetches + [Fetch(postId, FetchUrl(apiURL, postId), nonce)];
    }

    /** A marker is clicked: re:wild markers display their modal, the others are followed as links. */
    method ClickMarker(m: MapBlock.Marker) returns (navigateTo: Option<string>)
      requires Valid()
      modifies this`modals, this`fetches, this`bodyClasses, this`escapeHandlers
      ensures Valid()
      ensures m.typeSlug != MapBlock.RewildType ==>
        && navigateTo == Some(m.href)
        && modals == old(modals) && fetches == old(fetches)
        && bodyClasses == old(bodyClasses) && escapeHandlers == old(escapeHandlers)
      ensures m.typeSlug == MapBlock.RewildType ==> navigateTo == None && CardDisplayed(m.id)
    {
      var element := MarkerElementFor(m);
      if element.opensModal {
        DisplayCardModal(m.id);
        navigateTo := None;
      } else {
        navigateTo := Some(element.href);
      }
    }

    /** The response of the `k`-th pending request arrives: the modal is built, appended and opened. */
    method FetchResolved(k: nat, response: PostResponse)
      requires Valid() && k < |fetches|
      modifies this`fetches, this`modals, this`bodyClasses, this`escapeHandlers
      ensures Valid()
      ensures fetches == old(fetches[..k] + fetches[k + 1..])
      ensures response.featuredImage.None? ==>
        modals == old(modals) && bodyClasses == old(bodyClasses) && escapeHandlers == old(escapeHandlers)
      ensures response.featuredImage.Some? ==>
        && |modals| == |old(modals)| + 1
        && modals[..|old(modals)|] == old(modals)
        && modals[|old(modals)|] == Modal(ModalId(response.id), response.category.name, response.category.link,
             response.title, modals[|old(modals)|].image, response.content, true, 1, 1)
        && WhitelistCopy(response.featuredImage.value, map[], modals[|old(modals)|].image)
        && FindModal(modals, ModalId(response.id)).Some?
        && bodyClasses == old(bodyClasses) + {HasOpenModalClass}
        && escapeHandlers == old(escapeHandlers) + 1
    {
      fetches := fetches[..k] + fetches[k + 1..];
      var modal := CreateModal(response);
      if modal.None? {
        return;
      }
      AppendedModalLookup(modals, Opened(modal.value), ModalId(response.id));
      modals := modals + [modal.value];
      OpenModal(|modals| - 1);
    }

    /** openModal: mark the page, show the modal and attach its close listeners once more. */
    method OpenModal(k: nat)
      requires IntroductionConsistent() && DismissalCarriedOut() && AtMostOneShown(accordions[..])
      requires k < |modals|
      requires forall j :: 0 <= j < |modals| && j != k ==> ListenersPaired(modals[j])
      requires modals[k].closeListeners == modals[k].backdropListeners
      modifies this`modals, this`bodyClasses, this`escapeHandlers
      ensures Valid()
      ensures modals == old(modals)[k := Opened(old(modals)[k])]
      ensures bodyClasses == old(bodyClasses) + {HasOpenModalClass}
      ensures escapeHandlers == old(escapeHandlers) + 1
    {
      bodyClasses := bodyClasses + {HasOpenModalClass};
      modals := modals[k := Opened(modals[k])];
      escapeHandlers := escapeHandlers + 1;
    }

    /** closeModal: unmark the page and close the modal. */
    method CloseModal(k: nat)
      requires Valid() && k < |modals|
      modifies this`modals, this`bodyClasses
      ensures Valid()
      ensures modals == old(modals)[k := old(modals)[k].(open := false)]
      ensures bodyClasses == old(bodyClasses) - {HasOpenModalClass}
    {
      bodyClasses := bodyClasses - {HasOpenModalClass};
      modals := modals[k := modals[k].(open := false)];
    }

    /** The close button of modal `k` is clicked: every listener it has closes the modal. */
    method ClickCloseButton(k: nat)
      requires Valid() && k < |modals|
      modifies this`modals, this`bodyClasses
      ensures Valid()
      ensures modals == old(modals)[k := old(modals)[k].(open := false)]
      ensures bodyClasses == old(bodyClasses) - {HasOpenModalClass}
    {
      CloseModal(k);
    }

    /** Modal `k` is clicked; only a click on the dialog itself, the backdrop, closes it. */
    method ClickModal(k: nat, onBackdrop: bool)
      requires Valid() && k < |modals|
      modifies this`modals, this`bodyClasses
      ensures Valid()
      ensures onBackdrop ==>
        modals == old(modals)[k := old(modals)[k].(open := false)] && bodyClasses == old(bodyClasses) - {HasOpenModalClass}
      ensures !onBackdrop ==> modals == old(modals) && bodyClasses == old(bodyClasses)
    {
      if onBackdrop {
        CloseModal(k);
      }
    }

    /**
     * A key is pressed: on Escape each attached handler removes the page's
     * open-modal class and detaches itself.
     */
    method KeyDown(key: string)
      requires Valid()
      modifies this`bodyClasses, this`escapeHandlers
      ensures Valid()
      ensures key == "Escape" && old(escapeHandlers) > 0 ==>
        bodyClasses == old(bodyClasses) - {HasOpenModalClass} && escapeHandlers == 0
      ensures !(key == "Escape" && old(escapeHandlers) > 0) ==>
        bodyClasses == old(bodyClasses) && escapeHandlers == old(escapeHandlers)
    {
      if key == "Escape" && escapeHandlers > 0 {
        bodyClasses := bodyClasses - {HasOpenModalClass};
        escapeHandlers := 0;
      }
    }
  }
}
