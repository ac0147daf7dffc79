/**
 * The PostgreSQL storage backend (`PostgresStorage`): the `tools` table as a
 * sequence of rows, the row-to-tool mapping, and the create/update rules
 * where this backend differs from the JSON-file one.
 */
module PostgresStorage {
  import opened Wrappers
  import opened Schema
  import Text
  import Seqs
  import JsonStorage

  /**
   * One row of the `tools` table (`ToolRow`). Columns declared NOT NULL are
   * plain values; nullable columns are options. `features` and `tags` are JSONB
   * and read as `None` when they do not hold an array.
   */
  datatype Row = Row(
    id: string,
    slug: string,
    name: string,
    description: string,
    shortDescription: string,
    category: string,
    pricing: string,
    websiteUrl: string,
    logoUrl: Option<string>,
    features: Option<seq<string>>,
    tags: Option<seq<string>>,
    badge: Option<string>,
    rating: Option<real>,
    sourceDetailUrl: Option<string>,
    developer: Option<string>,
    documentationUrl: Option<string>,
    socialLinks: Option<SocialLinks>,
    useCases: Option<seq<string>>,
    screenshots: Option<seq<string>>,
    pricingDetails: Option<PricingDetails>,
    launchDate: Option<string>,
    lastUpdated: string)

  /** The errors the backend raises: its own two messages, and a rejected statement. */
  datatype PgError = Duplicate | NotFound | DbError

  /** `mapRowToTool`: columns are renamed, a non-array `features`/`tags` becomes `[]`. */
  function MapRowToTool(r: Row): (t: Tool)
    ensures t.id == r.id && t.data.slug == r.slug && t.data.name == r.name
    ensures r.features.Some? ==> t.data.features == r.features.value
    ensures r.features.None? ==> t.data.features == []
    ensures r.tags.Some? ==> t.data.tags == r.tags.value
    ensures r.tags.None? ==> t.data.tags == []
  {
    Tool(r.id, ToolData(
      r.slug, r.name, r.description, r.shortDescription, r.category, r.pricing,
      r.websiteUrl, r.logoUrl, r.features.GetOr([]), r.tags.GetOr([]), r.badge,
      r.rating, r.sourceDetailUrl, r.developer, r.documentationUrl, r.socialLinks,
      r.useCases, r.screenshots, r.pricingDetails, r.launchDate, r.lastUpdated))
  }

  /**
   * The row the INSERT and UPDATE statements write for a tool: absent optional
   * fields become NULL, arrays and objects are stored as JSONB (every array and
   * object is truthy, so none of them is turned into NULL).
   */
  function ToRow(t: Tool): Row {
    var d := t.data;
    Row(t.id, d.slug, d.name, d.description, d.shortDescription, d.category, d.pricing,
        d.websiteUrl, d.logoUrl, Some(d.features), Some(d.tags), d.badge, d.rating,
        d.sourceDetailUrl, d.developer, d.documentationUrl, d.socialLinks, d.useCases,
        d.screenshots, d.pricingDetails, d.launchDate, d.lastUpdated)
  }

  /** Writing a tool and reading it back gives the same tool. */
  lemma RowRoundTrip(t: Tool)
    ensures MapRowToTool(ToRow(t)) == t
  {
  }

  /** Reading a row and writing it back changes only a non-array `features`/`tags` into `[]`. */
  lemma RowNormalises(r: Row)
    ensures ToRow(MapRowToTool(r)) == r.(features := Some(r.features.GetOr([])), tags := Some(r.tags.GetOr([])))
  {
  }

  /** The position of the row with primary key `id`, or -1. */
  function RowIndex(rows: seq<Row>, id: string): (i: int)
    ensures -1 <= i < |rows|
    ensures 0 <= i ==> rows[i].id == id
    ensures i < 0 <==> forall j :: 0 <= j < |rows| ==> rows[j].id != id
  {
    Seqs.FindIndex(rows, (r: Row) => r.id == id)
  }

  /** `getToolById`: `SELECT ... WHERE id = $id LIMIT 1`. */
  function GetToolById(rows: seq<Row>, id: string): (r: Option<Tool>)
    ensures r.None? <==> forall j :: 0 <= j < |rows| ==> rows[j].id != id
    ensures r.Some? ==> r.value.id == id && exists j :: 0 <= j < |rows| && r.value == MapRowToTool(rows[j])
  {
    var i := RowIndex(rows, id);
    if i < 0 then None else Some(MapRowToTool(rows[i]))
  }

  /**
   * The WHERE clause of `findDuplicateTool`: `lower(name) = lower($name) OR
   * website_url = $url`. A NULL parameter compares as unknown, so it matches nothing.
   */
  predicate RowClashes(r: Row, name: Option<string>, url: Option<string>) {
    (name.Some? && Text.Lower(r.name) == Text.Lower(name.value))
    || (url.Some? && r.websiteUrl == url.value)
  }

  /** `findDuplicateTool`: some row clashing with the name or website. */
  function FindDuplicateTool(rows: seq<Row>, name: Option<string>, url: Option<string>): (r: Option<Tool>)
    ensures r.None? <==> forall j :: 0 <= j < |rows| ==> !RowClashes(rows[j], name, url)
    ensures r.Some? ==> exists j :: 0 <= j < |rows| && RowClashes(rows[j], name, url) && r.value == MapRowToTool(rows[j])
  {
    var i := Seqs.FindIndex(rows, (r: Row) => RowClashes(r, name, url));
    if i < 0 then None else Some(MapRowToTool(rows[i]))
  }

  /** Both backends report a duplicate for the same stored tools and the same name and website. */
  lemma DuplicateAgrees(rows: seq<Row>, name: string, url: string)
    ensures FindDuplicateTool(rows, Some(name), Some(url)).Some? <==>
      JsonStorage.FindDuplicateTool(JsonStorage.JsonStore(Seqs.Map(rows, MapRowToTool), false), name, url).Some?
  {
    var tools := Seqs.Map(rows, MapRowToTool);
    assert forall j :: 0 <= j < |rows| ==>
      (RowClashes(rows[j], Some(name), Some(url)) <==> JsonStorage.Clashes(tools[j], name, url));
  }

  /**
   * `normalizeInsert`: missing `features`/`tags` become `[]`; the four nested
   * optional fields become present-but-undefined when nullish.
   */
  function NormalizeInsert(p: Patch): Patch {
    p.(features := Some(p.features.GetOr([])), tags := Some(p.tags.GetOr([])),
       socialLinks := Nullish(p.socialLinks), useCases := Nullish(p.useCases),
       screenshots := Nullish(p.screenshots), pricingDetails := Nullish(p.pricingDetails))
  }

  /** `v ?? undefined` written into an object literal: the key is always present. */
  function Nullish<T>(u: Update<T>): Update<T> {
    if u.Put? then u else Clear
  }

  /**
   * Normalising always yields `features` and `tags`, keeps every value the
   * input had, and is idempotent.
   */
  lemma NormalizeInsertSpec(p: Patch)
    ensures var n := NormalizeInsert(p);
      && n.features.Some? && n.tags.Some?
      && (p.features.Some? ==> n.features == p.features)
      && (p.tags.Some? ==> n.tags == p.tags)
      && Val(n.socialLinks) == Val(p.socialLinks) && Val(n.useCases) == Val(p.useCases)
      && Val(n.screenshots) == Val(p.screenshots) && Val(n.pricingDetails) == Val(p.pricingDetails)
      && NormalizeInsert(n) == n
  {
  }

  /**
   * `PostgresStorage.createTool` on an unchecked input: a clash gives
   * `Duplicate`; the input's `lastUpdated` is kept and only a missing one
   * becomes `today`; a missing NOT NULL column or a repeated id, slug or
   * website makes the INSERT fail.
   */
  function CreateTool(rows: seq<Row>, input: Patch, newId: string, today: string)
    : (r: Result<(seq<Row>, Tool), PgError>)
    ensures r == Failure(Duplicate) <==>
      exists j :: 0 <= j < |rows| && RowClashes(rows[j], input.name, input.websiteUrl)
    ensures r.Success? ==>
      var d := AsRecord(NormalizeInsert(input).(lastUpdated := Some(input.lastUpdated.GetOr(today))));
      d.Some? && r.value.1 == Tool(newId, d.value) && r.value.0 == rows + [ToRow(r.value.1)]
    ensures r.Success? ==> input.lastUpdated.Some? ==> r.value.1.data.lastUpdated == input.lastUpdated.value
    ensures r.Success? ==> input.lastUpdated.None? ==> r.value.1.data.lastUpdated == today
    ensures r.Success? ==> forall j :: 0 <= j < |rows| ==>
      rows[j].id != newId && rows[j].slug != r.value.1.data.slug && rows[j].websiteUrl != r.value.1.data.websiteUrl
  {
    var n := NormalizeInsert(input);
    if FindDuplicateTool(rows, n.name, n.websiteUrl).Some? then Failure(Duplicate)
    else
      var lastUpdated := n.lastUpdated.GetOr(today);
      match AsRecord(n.(lastUpdated := Some(lastUpdated)))
      case None => Failure(DbError)
      case Some(d) =>
        var row := ToRow(Tool(newId, d));
        if exists j :: 0 <= j < |rows| && (rows[j].id == newId || rows[j].slug == d.slug || rows[j].websiteUrl == d.websiteUrl)
        then Failure(DbError)
        else
          RowRoundTrip(Tool(newId, d));
          Success((rows + [row], MapRowToTool(row)))
  }

  /**
   * Side by side on a complete record: the JSON store stamps `today`, this
   * backend keeps the caller's `lastUpdated`.
   */
  lemma CreateDateSideBySide(st: JsonStorage.JsonStore, rows: seq<Row>, d: ToolData, newId: string, today: string)
    requires JsonStorage.UniqueIds(st.tools)
    requires JsonStorage.CreateTool(st, d, newId, today).Success?
    requires CreateTool(rows, FullPatch(d), newId, today).Success?
    ensures JsonStorage.CreateTool(st, d, newId, today).value.1.data == d.(lastUpdated := today)
    ensures CreateTool(rows, FullPatch(d), newId, today).value.1.data == d
  {
    var p := FullPatch(d);
    AsRecordFull(d);
    assert AsRecord(NormalizeInsert(p).(lastUpdated := Some(p.lastUpdated.GetOr(today)))) == AsRecord(p);
  }

  /** `existing ?? fallback` style merge for one optional field: only a given value replaces. */
  function Coalesce<T>(prev: Option<T>, u: Update<T>): Option<T> {
    if u.Put? then Some(u.value) else prev
  }

  /**
   * The merged record of `PostgresStorage.updateTool`: object spread, except
   * that `socialLinks`, `useCases`, `screenshots` and `pricingDetails` keep
   * the old value when the update holds a nullish one.
   */
  function Merge(d: ToolData, p: Patch, today: string): (m: ToolData)
    ensures m.features == (if p.features.Some? then p.features.value else d.features)
    ensures m.tags == (if p.tags.Some? then p.tags.value else d.tags)
    ensures m.socialLinks == (if p.socialLinks.Put? then Some(p.socialLinks.value) else d.socialLinks)
    ensures m.useCases == (if p.useCases.Put? then Some(p.useCases.value) else d.useCases)
    ensures m.screenshots == (if p.screenshots.Put? then Some(p.screenshots.value) else d.screenshots)
    ensures m.pricingDetails == (if p.pricingDetails.Put? then Some(p.pricingDetails.value) else d.pricingDetails)
    ensures m.lastUpdated == today
    ensures var s := JsonStorage.Spread(d, p);
      m.(socialLinks := s.socialLinks, useCases := s.useCases, screenshots := s.screenshots,
         pricingDetails := s.pricingDetails, lastUpdated := s.lastUpdated) == s
  {
    JsonStorage.Spread(d, p).(
      lastUpdated := today,
      features := p.features.GetOr(d.features), tags := p.tags.GetOr(d.tags),
      socialLinks := Coalesce(d.socialLinks, p.socialLinks),
      useCases := Coalesce(d.useCases, p.useCases),
      screenshots := Coalesce(d.screenshots, p.screenshots),
      pricingDetails := Coalesce(d.pricingDetails, p.pricingDetails))
  }

  /** No explicitly nullish value in one of the four nested fields. */
  predicate NoNestedClear(p: Patch) {
    !p.socialLinks.Clear? && !p.useCases.Clear? && !p.screenshots.Clear? && !p.pricingDetails.Clear?
  }

  /**
   * Side by side with the JSON store: the two merges agree exactly when the
   * update clears none of the four nested fields (or clears only fields that
   * were already empty); a cleared nested field is dropped by the JSON store
   * and kept here.
   */
  lemma MergeSideBySide(d: ToolData, p: Patch, today: string)
    ensures NoNestedClear(p) ==> Merge(d, p, today) == JsonStorage.Spread(d, p).(lastUpdated := today)
    ensures p.socialLinks.Clear? ==>
      JsonStorage.Spread(d, p).socialLinks == None && Merge(d, p, today).socialLinks == d.socialLinks
    ensures p.pricingDetails.Clear? ==>
      JsonStorage.Spread(d, p).pricingDetails == None && Merge(d, p, today).pricingDetails == d.pricingDetails
    ensures Merge(d, p, today) == JsonStorage.Spread(d, p).(lastUpdated := today) <==>
      && (p.socialLinks.Clear? ==> d.socialLinks.None?)
      && (p.useCases.Clear? ==> d.useCases.None?)
      && (p.screenshots.Clear? ==> d.screenshots.None?)
      && (p.pricingDetails.Clear? ==> d.pricingDetails.None?)
  {
    var m := Merge(d, p, today);
    var s := JsonStorage.Spread(d, p).(lastUpdated := today);
    if m == s {
      assert m.socialLinks == s.socialLinks && m.useCases == s.useCases;
      assert m.screenshots == s.screenshots && m.pricingDetails == s.pricingDetails;
    }
  }

  /**
   * `PostgresStorage.updateTool`: an unknown id gives `NotFound`; otherwise the
   * merged record replaces the row, unless its slug or website is taken by
   * another row (the UPDATE then fails on the UNIQUE constraint).
   */
  function UpdateTool(rows: seq<Row>, id: string, p: Patch, today: string)
    : (r: Result<(seq<Row>, Tool), PgError>)
    ensures r == Failure(NotFound) <==> forall j :: 0 <= j < |rows| ==> rows[j].id != id
    ensures r.Success? ==> exists j ::
      && 0 <= j < |rows| && rows[j].id == id
      && r.value.1 == Tool(id, Merge(MapRowToTool(rows[j]).data, p, today))
      && r.value.0 == rows[j := ToRow(r.value.1)]
    ensures r.Success? ==> |r.value.0| == |rows| && r.value.1.data.lastUpdated == today
  {
    var i := RowIndex(rows, id);
    if i < 0 then Failure(NotFound)
    else
      var m := Merge(MapRowToTool(rows[i]).data, p, today);
      if exists j :: 0 <= j < |rows| && rows[j].id != id && (rows[j].slug == m.slug || rows[j].websiteUrl == m.websiteUrl)
      then Failure(DbError)
      else
        var t := Tool(id, m);
        RowRoundTrip(t);
        Success((rows[i := ToRow(t)], MapRowToTool(ToRow(t))))
  }

  /** `PostgresStorage.deleteTool`: `DELETE ... WHERE id = $id RETURNING id` matched a row. */
  function DeleteTool(rows: seq<Row>, id: string): (r: (seq<Row>, bool))
    ensures r.1 <==> exists j :: 0 <= j < |rows| && rows[j].id == id
    ensures forall j :: 0 <= j < |r.0| ==> r.0[j].id != id
    ensures forall x :: x in r.0 <==> x in rows && x.id != id
  {
    var kept := Seqs.Filter(rows, (x: Row) => x.id != id);
    (kept, RowIndex(rows, id) >= 0)
  }
}
