/**
 * The Location taxonomy's admin and link filters (taxonomy/location.php):
 * the term list table's columns, the coordinates cell, the rewritten term
 * link and the decision the term save handler takes.
 */
module Location {
  import opened Common
  import Text
  import PhpArray

  const Slug := "location"
  const CoordinatesMetaKey := "coordinates"
  const CoordsColumn := "coords"
  const LocationIdArg := "locationId"

  /** A column label, or PHP `null` where a missing key was read. */
  datatype Cell = Null | Label(text: string)

  /** `$columns[$k]`: the label, or `null` when the key is missing. */
  function CellAt(columns: PhpArray.OrderedMap<Cell>, k: string): Cell {
    match PhpArray.Get(columns, k)
    case Some(c) => c
    case None => Null
  }

  /**
   * manage_edit-location_columns: on the term list screen, cb and name move to
   * the front and coords follows them; other screens get the columns unchanged.
   */
  function AddCoordinateColumn(columns: PhpArray.OrderedMap<Cell>, screenBase: string, coordsLabel: string)
    : (r: PhpArray.OrderedMap<Cell>)
    requires PhpArray.KeysDistinct(columns)
    ensures screenBase != "edit-tags" ==> r == columns
    ensures screenBase == "edit-tags" ==>
      && |r| >= 3
      && r[0] == ("cb", CellAt(columns, "cb"))
      && r[1] == ("name", CellAt(columns, "name"))
      && r[2] == (CoordsColumn, match PhpArray.Get(columns, CoordsColumn)
                                case Some(c) => c
                                case None => Label(coordsLabel))
      && r[3..] == PhpArray.Without(columns, {"cb", "name", CoordsColumn})
    ensures PhpArray.KeysDistinct(r)
  {
    if screenBase == "edit-tags" then
      ReorderShape(columns, coordsLabel);
      Reorder(columns, coordsLabel)
    else
      columns
  }

  /** The three leading columns: the existing cb and name labels and a new coords label. */
  function LeadingColumns(columns: PhpArray.OrderedMap<Cell>, coordsLabel: string): PhpArray.OrderedMap<Cell> {
    [("cb", CellAt(columns, "cb")), ("name", CellAt(columns, "name")), (CoordsColumn, Label(coordsLabel))]
  }

  /** The reordering itself: unset cb and name, then array_merge the leading columns with what is left. */
  function Reorder(columns: PhpArray.OrderedMap<Cell>, coordsLabel: string): PhpArray.OrderedMap<Cell> {
    PhpArray.Merge(LeadingColumns(columns, coordsLabel), PhpArray.Unset(PhpArray.Unset(columns, "cb"), "name"))
  }

  lemma ReorderShape(columns: PhpArray.OrderedMap<Cell>, coordsLabel: string)
    requires PhpArray.KeysDistinct(columns)
    ensures var r := Reorder(columns, coordsLabel);
      && PhpArray.KeysDistinct(r)
      && |r| >= 3
      && r[0] == ("cb", CellAt(columns, "cb"))
      && r[1] == ("name", CellAt(columns, "name"))
      && r[2] == (CoordsColumn, match PhpArray.Get(columns, CoordsColumn)
                                case Some(c) => c
                                case None => Label(coordsLabel))
      && r[3..] == PhpArray.Without(columns, {"cb", "name", CoordsColumn})
  {
    UnsetLeading(columns);
    LeadingMergeShape(columns, coordsLabel);
  }

  /** The merge of the leading columns with the columns other than cb and name. */
  lemma LeadingMergeShape(columns: PhpArray.OrderedMap<Cell>, coordsLabel: string)
    requires PhpArray.KeysDistinct(columns)
    ensures var r := PhpArray.Merge(LeadingColumns(columns, coordsLabel), PhpArray.Without(columns, {"cb", "name"}));
      && PhpArray.KeysDistinct(r)
      && |r| >= 3
      && r[0] == ("cb", CellAt(columns, "cb"))
      && r[1] == ("name", CellAt(columns, "name"))
      && r[2] == (CoordsColumn, match PhpArray.Get(columns, CoordsColumn)
                                case Some(c) => c
                                case None => Label(coordsLabel))
      && r[3..] == PhpArray.Without(columns, {"cb", "name", CoordsColumn})
  {
    var head := LeadingColumns(columns, coordsLabel);
    var rest := PhpArray.Without(columns, {"cb", "name"});
    PhpArray.WithoutDistinct(columns, {"cb", "name"});
    PhpArray.MergeShape(head, rest);
    assert head[0].0 == "cb" && head[1].0 == "name" && head[2].0 == CoordsColumn;
    assert PhpArray.KeySet(head) == {"cb", "name", CoordsColumn};
    PhpArray.WithoutWithout(columns, {"cb", "name"}, {"cb", "name", CoordsColumn});
    assert {"cb", "name"} + {"cb", "name", CoordsColumn} == {"cb", "name", CoordsColumn};
    PhpArray.WithoutKeepsGet(columns, {"cb", "name"}, CoordsColumn);
    var o := PhpArray.Overwrite(head, rest);
    assert PhpArray.Get(rest, "cb") == None && PhpArray.Get(rest, "name") == None;
    assert o[0] == head[0] && o[1] == head[1];
  }

  /** Unsetting cb and name leaves the other columns, distinct, with coords reading as before. */
  lemma UnsetLeading(columns: PhpArray.OrderedMap<Cell>)
    requires PhpArray.KeysDistinct(columns)
    ensures var rest := PhpArray.Unset(PhpArray.Unset(columns, "cb"), "name");
      && rest == PhpArray.Without(columns, {"cb", "name"})
      && PhpArray.KeysDistinct(rest)
      && PhpArray.Get(rest, "cb") == None && PhpArray.Get(rest, "name") == None
      && PhpArray.Get(rest, CoordsColumn) == PhpArray.Get(columns, CoordsColumn)
  {
    PhpArray.WithoutWithout(columns, {"cb"}, {"name"});
    assert {"cb"} + {"name"} == {"cb", "name"};
  }

  /** manage_location_custom_column: only the coords column is filled in, with the term's coordinates meta. */
  function DisplayCoordinateColumn(content: string, column: string, termCoordinates: string): (r: string)
    ensures column != CoordsColumn ==> r == content
    ensures column == CoordsColumn ==> r == termCoordinates
  {
    if CoordsColumn != column then content else termCoordinates
  }

  /** A link: the address without its query string, and the query arguments in order. */
  datatype Url = Url(address: string, query: PhpArray.OrderedMap<string>)

  datatype Term = Term(termId: nat, taxonomy: string)

  /** add_query_arg for one argument: an existing argument is replaced in place, a new one appended. */
  function AddQueryArg(url: Url, key: string, value: string): (r: Url)
    ensures r.address == url.address
    ensures PhpArray.Get(r.query, key) == Some(value)
    ensures forall k :: k != key ==> PhpArray.Get(r.query, k) == PhpArray.Get(url.query, k)
    ensures PhpArray.KeysDistinct(url.query) ==> PhpArray.KeysDistinct(r.query)
  {
    PhpArray.PutGet(url.query, key, value);
    PhpArray.PutKeepsDistinct(url.query, key, value);
    url.(query := PhpArray.Put(url.query, key, value))
  }

  /**
   * term_link: a location term links to the press page when it is being shown,
   * otherwise to the exploration archive, with `locationId` set to the term id;
   * links of other taxonomies pass through.
   */
  function FilterTermLink(link: Url, term: Term, isPressPage: bool, pressPermalink: Url, archiveLink: Url): (r: Url)
    ensures term.taxonomy != Slug ==> r == link
    ensures term.taxonomy == Slug ==>
      var base := if isPressPage then pressPermalink else archiveLink;
      && r.address == base.address
      && PhpArray.Get(r.query, LocationIdArg) == Some(Text.NatToString(term.termId))
      && forall k :: k != LocationIdArg ==> PhpArray.Get(r.query, k) == PhpArray.Get(base.query, k)
  {
    if Slug != term.taxonomy then link
    else
      var base := if isPressPage then pressPermalink else archiveLink;
      AddQueryArg(base, LocationIdArg, Text.NatToString(term.termId))
  }

  /** Two location links for different terms never carry the same locationId. */
  lemma LocationIdsDistinguishTerms(link: Url, t1: Term, t2: Term, isPressPage: bool, press: Url, archive: Url)
    requires t1.taxonomy == Slug && t2.taxonomy == Slug
    requires FilterTermLink(link, t1, isPressPage, press, archive) == FilterTermLink(link, t2, isPressPage, press, archive)
    ensures t1.termId == t2.termId
  {
    Text.NatToStringInjective(t1.termId, t2.termId);
  }

  /** The nonce check_admin_referer verifies: its action and the request field it is read from. */
  datatype NonceCheck = NonceCheck(action: string, queryArg: string)

  /** What save_term_fields does once the current hook is known. */
  datatype SaveOutcome =
    | Died(check: NonceCheck)
    | NothingPosted(check: NonceCheck)
    | Updated(check: NonceCheck, termId: nat, metaKey: string, value: string)

  /** The nonce that guards a save: the add-term form's on creation, the term's own edit nonce otherwise. */
  function NonceFor(termId: nat, currentFilter: string): (c: NonceCheck)
    ensures currentFilter == "created_" + Slug ==> c == NonceCheck("add-tag", "_wpnonce_add-tag")
    ensures currentFilter != "created_" + Slug ==> c == NonceCheck("update-tag_" + Text.NatToString(termId), "_wpnonce")
  {
    if "created_" + Slug == currentFilter then NonceCheck("add-tag", "_wpnonce_add-tag")
    else NonceCheck("update-tag_" + Text.NatToString(termId), "_wpnonce")
  }

  /** An edit nonce is tied to one term: two terms never share the action they check. */
  lemma EditNonceIsPerTerm(a: nat, b: nat, currentFilter: string)
    requires currentFilter != "created_" + Slug
    requires NonceFor(a, currentFilter) == NonceFor(b, currentFilter)
    ensures a == b
  {
    var p := "update-tag_";
    assert Text.NatToString(a) == (p + Text.NatToString(a))[|p|..];
    assert Text.NatToString(b) == (p + Text.NatToString(b))[|p|..];
    Text.NatToStringInjective(a, b);
  }

  /**
   * save_term_fields: check the nonce (a failed check ends the request), then
   * store the sanitized posted coordinates, if any were posted.
   * `nonceAccepted` stands for check_admin_referer's verdict and `sanitize`
   * for sanitize_text_field after wp_unslash.
   */
  function SaveTermFields(termId: nat, currentFilter: string, nonceAccepted: NonceCheck -> bool,
                          posted: Option<string>, sanitize: string -> string): (r: SaveOutcome)
    ensures r.check == NonceFor(termId, currentFilter)
    ensures r.Died? <==> !nonceAccepted(NonceFor(termId, currentFilter))
    ensures r.Updated? <==> nonceAccepted(NonceFor(termId, currentFilter)) && posted.Some?
    ensures r.Updated? ==> r.termId == termId && r.metaKey == CoordinatesMetaKey && r.value == sanitize(posted.value)
  {
    var check := NonceFor(termId, currentFilter);
    if !nonceAccepted(check) then Died(check)
    else if posted.None? then NothingPosted(check)
    else Updated(check, termId, CoordinatesMetaKey, sanitize(posted.value))
  }
}
