/**
 * The Express route handlers over the `tools` table: the listing with its
 * four-way filter dispatch, lookup by slug, and the status rules of create,
 * update and delete. SQL statements are modelled as filters over the rows.
 */
module Routes {
  import opened Wrappers
  import opened Json
  import opened Schema
  import Text
  import Seqs
  import PostgresStorage

  type Row = PostgresStorage.Row

  /** An HTTP reply: the status and either the payload or the `error` message. */
  datatype Reply<T> = Reply(status: nat, body: Result<T, string>)

  const DB_MISSING := "DATABASE_URL is missing"
  const TOOL_NOT_FOUND := "Tool not found"
  const VALIDATION_ERROR := "Validation error"

  /** A query parameter counts only when it is a string that is not blank after trimming. */
  predicate Given(v: JsVal) {
    v.Str? && |Text.Trim(v.s)| > 0
  }

  /** The four query shapes the listing distinguishes. */
  datatype Branch = NoFilter | SearchOnly | CategoryOnly | Both

  function Classify(search: JsVal, category: JsVal): (b: Branch)
    ensures b.NoFilter? <==> !Given(search) && !Given(category)
    ensures b.SearchOnly? <==> Given(search) && !Given(category)
    ensures b.CategoryOnly? <==> !Given(search) && Given(category)
    ensures b.Both? <==> Given(search) && Given(category)
  {
    if !Given(search) && !Given(category) then NoFilter
    else if Given(search) && !Given(category) then SearchOnly
    else if !Given(search) && Given(category) then CategoryOnly
    else Both
  }

  /** The columns the listing selects. */
  datatype ListItem = ListItem(
    id: string, slug: string, name: string, shortDescription: string,
    category: string, pricing: string, websiteUrl: string, logoUrl: Option<string>,
    features: Option<seq<string>>, badge: Option<string>, rating: Option<real>,
    developer: Option<string>)

  function Project(r: Row): ListItem {
    ListItem(r.id, r.slug, r.name, r.shortDescription, r.category, r.pricing,
             r.websiteUrl, r.logoUrl, r.features, r.badge, r.rating, r.developer)
  }

  /** `name ILIKE p OR description ILIKE p OR short_description ILIKE p` with `p = '%' + q + '%'`. */
  predicate IlikeHit(r: Row, q: string) {
    var lq := Text.Lower(q);
    || Text.Includes(Text.Lower(r.name), lq)
    || Text.Includes(Text.Lower(r.description), lq)
    || Text.Includes(Text.Lower(r.shortDescription), lq)
  }

  /** The rows a query shape selects. */
  predicate Selected(b: Branch, search: JsVal, category: JsVal, r: Row)
    requires (b.SearchOnly? || b.Both?) ==> search.Str?
    requires (b.CategoryOnly? || b.Both?) ==> category.Str?
  {
    match b
    case NoFilter => true
    case SearchOnly => IlikeHit(r, Text.Trim(search.s))
    case CategoryOnly => r.category == category.s
    case Both => IlikeHit(r, Text.Trim(search.s)) && r.category == category.s
  }

  /** Reference meaning of the listing filter: the trimmed term occurs in a searched column, and the category is equal. */
  ghost predicate Wanted(search: JsVal, category: JsVal, r: Row) {
    && (Given(search) ==>
         || Text.IsSubstring(Text.Lower(Text.Trim(search.s)), Text.Lower(r.name))
         || Text.IsSubstring(Text.Lower(Text.Trim(search.s)), Text.Lower(r.description))
         || Text.IsSubstring(Text.Lower(Text.Trim(search.s)), Text.Lower(r.shortDescription)))
    && (Given(category) ==> r.category == category.s)
  }

  /** Each of the four branches selects exactly the wanted rows. */
  lemma SelectedIsWanted(search: JsVal, category: JsVal, r: Row)
    ensures Selected(Classify(search, category), search, category, r) <==> Wanted(search, category, r)
  {
    if Given(search) {
      IlikeHitMeans(r, Text.Trim(search.s));
    }
  }

  /** The scanning `ILIKE` test is the substring test on the three searched columns. */
  lemma IlikeHitMeans(r: Row, q: string)
    ensures IlikeHit(r, q) <==>
      || Text.IsSubstring(Text.Lower(q), Text.Lower(r.name))
      || Text.IsSubstring(Text.Lower(q), Text.Lower(r.description))
      || Text.IsSubstring(Text.Lower(q), Text.Lower(r.shortDescription))
  {
  }

  /** `GET /tools`: the selected rows, projected, ordered by name. */
  function ListTools(db: bool, rows: seq<Row>, search: JsVal, category: JsVal): (reply: Reply<seq<ListItem>>)
    ensures !db ==> reply == Reply(500, Failure(DB_MISSING))
    ensures db ==> reply.status == 200 && reply.body.Success?
    ensures db ==> Seqs.SortedBy(reply.body.value, (x: ListItem) => x.name)
    ensures db ==> forall x :: x in reply.body.value <==>
      exists r :: r in rows && Wanted(search, category, r) && x == Project(r)
  {
    if !db then Reply(500, Failure(DB_MISSING))
    else
      var b := Classify(search, category);
      var sel := (r: Row) => Selected(b, search, category, r);
      var hits := Seqs.Filter(rows, sel);
      var sorted := Seqs.SortByKey(hits, (r: Row) => r.name);
      var items := Seqs.Map(sorted, Project);
      ListFacts(sorted, items);
      WantedHits(rows, search, category, hits, sorted);
      Reply(200, Success(items))
  }

  lemma WantedHits(rows: seq<Row>, search: JsVal, category: JsVal, hits: seq<Row>, sorted: seq<Row>)
    requires forall r :: r in hits <==> r in rows && Selected(Classify(search, category), search, category, r)
    requires forall r :: r in sorted <==> r in hits
    ensures forall r :: r in sorted <==> r in rows && Wanted(search, category, r)
  {
    forall r
      ensures r in sorted <==> r in rows && Wanted(search, category, r)
    {
      SelectedIsWanted(search, category, r);
    }
  }

  lemma ListFacts(sorted: seq<Row>, items: seq<ListItem>)
    requires Seqs.SortedBy(sorted, (r: Row) => r.name)
    requires |items| == |sorted| && forall k :: 0 <= k < |sorted| ==> items[k] == Project(sorted[k])
    ensures Seqs.SortedBy(items, (x: ListItem) => x.name)
    ensures forall x :: x in items <==> exists r :: r in sorted && x == Project(r)
  {
    forall x | exists r :: r in sorted && x == Project(r)
      ensures x in items
    {
      var r :| r in sorted && x == Project(r);
      var k :| 0 <= k < |sorted| && sorted[k] == r;
      assert items[k] == x;
    }
  }

  /** With no filter the listing is every row, each exactly once. */
  lemma ListAllWhenUnfiltered(rows: seq<Row>, search: JsVal, category: JsVal)
    requires !Given(search) && !Given(category)
    ensures |ListTools(true, rows, search, category).body.value| == |rows|
  {
    Seqs.FilterAll(rows, (r: Row) => Selected(NoFilter, search, category, r));
    assert |Seqs.SortByKey(rows, (r: Row) => r.name)| == |rows| by {
      var s := Seqs.SortByKey(rows, (r: Row) => r.name);
      assert |multiset(s)| == |multiset(rows)|;
    }
  }

  /**
   * `GET /tools/:slug`: 404 unless some row has exactly that slug, and then
   * the row (with a UNIQUE slug column it is the only one).
   */
  function GetToolBySlug(db: bool, rows: seq<Row>, slug: string): (reply: Reply<Row>)
    ensures !db ==> reply == Reply(500, Failure(DB_MISSING))
    ensures db ==> (reply == Reply(404, Failure(TOOL_NOT_FOUND)) <==> forall r :: r in rows ==> r.slug != slug)
    ensures db && reply.status != 404 ==> reply.status == 200 && reply.body.Success?
    ensures reply.body.Success? ==> reply.body.value in rows && reply.body.value.slug == slug
  {
    if !db then Reply(500, Failure(DB_MISSING))
    else
      match Seqs.Find(rows, (r: Row) => r.slug == slug)
      case None => Reply(404, Failure(TOOL_NOT_FOUND))
      case Some(r) => Reply(200, Success(r))
  }

  /**
   * `POST /tools`: 400 when the body fails `insertToolSchema`; otherwise the
   * INSERT's outcome, given as `insert` because its statement names columns
   * the table does not have.
   */
  function CreateTool(db: bool, body: JsObject, isUrl: string -> bool, insert: ToolData -> Result<Row, string>)
    : (reply: Reply<Row>)
    ensures !db ==> reply == Reply(500, Failure(DB_MISSING))
    ensures db ==> (reply.status == 400 <==> ParseInsertTool(body, isUrl).Failure?)
    ensures db && reply.status == 400 ==> reply.body == Failure(VALIDATION_ERROR)
    ensures reply.status == 201 ==> ParseInsertTool(body, isUrl).Success?
    ensures reply.status == 201 ==> insert(ParseInsertTool(body, isUrl).value) == reply.body
  {
    if !db then Reply(500, Failure(DB_MISSING))
    else
      match ParseInsertTool(body, isUrl)
      case Failure(_) => Reply(400, Failure(VALIDATION_ERROR))
      case Success(d) =>
        match insert(d)
        case Success(row) => Reply(201, Success(row))
        case Failure(msg) => Reply(500, Failure(msg))
  }

  /**
   * `PATCH /tools/:id`: 400 when the body fails `insertToolSchema.partial()`;
   * otherwise 404 when the UPDATE matched no row. The statement is built
   * from the parsed partial, which holds only the schema's keys, nested ones
   * included; `update` is the database's answer to it.
   */
  function UpdateTool(db: bool, body: JsObject, isUrl: string -> bool, update: JsObject -> Result<seq<Row>, string>)
    : (reply: Reply<Row>)
    ensures !db ==> reply == Reply(500, Failure(DB_MISSING))
    ensures db ==> (reply.status == 400 <==> Issues(body, isUrl, true) != [])
    ensures db ==> (reply.status == 404 <==> Issues(body, isUrl, true) == [] && update(ParsedPartial(body)) == Success([]))
    ensures reply.status == 200 ==> update(ParsedPartial(body)).Success? && reply.body == Success(update(ParsedPartial(body)).value[0])
  {
    if !db then Reply(500, Failure(DB_MISSING))
    else if Issues(body, isUrl, true) != [] then Reply(400, Failure(VALIDATION_ERROR))
    else
      var partial := ParsedPartial(body);
      match update(partial)
      case Failure(msg) => Reply(500, Failure(msg))
      case Success(updated) =>
        if |updated| == 0 then Reply(404, Failure(TOOL_NOT_FOUND)) else Reply(200, Success(updated[0]))
  }

  /**
   * Keys the schema does not declare, at the top or inside `socialLinks` and
   * `pricingDetails`, are stripped by the parse: two bodies that differ only
   * in such keys get the same check, the same statement and the same reply.
   */
  lemma UpdateIgnoresUnknownKeys(db: bool, body: JsObject, other: JsObject, isUrl: string -> bool,
                                 update: JsObject -> Result<seq<Row>, string>)
    requires AgreeOnSchema(body, other)
    ensures UpdateTool(db, body, isUrl, update) == UpdateTool(db, other, isUrl, update)
  {
    IssuesAgree(body, other, isUrl, true);
    ParsedPartialAgrees(body, other);
  }

  /** `DELETE /tools/:id`: 404 when no row has the id, otherwise `{success: true}` and the row is gone. */
  function DeleteTool(db: bool, rows: seq<Row>, id: string): (r: (seq<Row>, Reply<bool>))
    ensures !db ==> r == (rows, Reply(500, Failure(DB_MISSING)))
    ensures db ==> (r.1 == Reply(404, Failure(TOOL_NOT_FOUND)) <==> forall x :: x in rows ==> x.id != id)
    ensures db && r.1.status != 404 ==> r.1 == Reply(200, Success(true))
    ensures forall x :: x in r.0 <==> x in rows && (db ==> x.id != id)
  {
    if !db then (rows, Reply(500, Failure(DB_MISSING)))
    else
      var (kept, found) := PostgresStorage.DeleteTool(rows, id);
      (kept, if found then Reply(200, Success(true)) else Reply(404, Failure(TOOL_NOT_FOUND)))
  }

  /** An empty partial body passes validation: every field of the partial schema may be absent. */
  lemma EmptyPatchIsValid(isUrl: string -> bool)
    ensures Issues(map[], isUrl, true) == []
  {
  }
}
