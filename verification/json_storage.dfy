/**
 * The JSON-file storage backend (`JsonStorage`): an insertion-ordered map from
 * id to tool, held as a sequence of tools with distinct ids.
 */
module JsonStorage {
  import opened Wrappers
  import opened Schema
  import Text
  import Seqs

  /** The errors the storage throws, each with its message. */
  datatype StoreError = ReadOnly | Duplicate | NotFound {
    function Message(): string {
      match this
      case ReadOnly => "Storage is read-only in this deployment"
      case Duplicate => "A tool with this name or website URL already exists"
      case NotFound => "Tool not found"
    }
  }

  /** The in-memory map (in insertion order) and the read-only flag. */
  datatype JsonStore = JsonStore(tools: seq<Tool>, readOnly: bool)

  /** The map invariant: no id occurs twice. */
  ghost predicate UniqueIds(s: seq<Tool>) {
    forall i, j :: 0 <= i < j < |s| ==> s[i].id != s[j].id
  }

  /** The position of the tool with id `id`, or -1. */
  function IdIndex(s: seq<Tool>, id: string): (i: int)
    ensures -1 <= i < |s|
    ensures 0 <= i ==> s[i].id == id
    ensures i < 0 <==> forall j :: 0 <= j < |s| ==> s[j].id != id
  {
    Seqs.FindIndex(s, (t: Tool) => t.id == id)
  }

  /** `Map.prototype.get`, which is also `getToolById`. */
  function Lookup(s: seq<Tool>, id: string): (r: Option<Tool>)
    ensures r.None? <==> forall j :: 0 <= j < |s| ==> s[j].id != id
    ensures r.Some? ==> r.value in s && r.value.id == id
  {
    var i := IdIndex(s, id);
    if i < 0 then None else Some(s[i])
  }

  /** `Map.prototype.set`: replaces in place when the id is present, appends otherwise. */
  function SetTool(s: seq<Tool>, t: Tool): seq<Tool> {
    var i := IdIndex(s, t.id);
    if i < 0 then s + [t] else s[i := t]
  }

  /** `Map.prototype.delete`. */
  function Remove(s: seq<Tool>, id: string): seq<Tool> {
    var i := IdIndex(s, id);
    if i < 0 then s else s[..i] + s[i + 1..]
  }

  /** With distinct ids, a present id is found exactly where it sits. */
  lemma IdIndexUnique(s: seq<Tool>, k: int)
    requires UniqueIds(s) && 0 <= k < |s|
    ensures IdIndex(s, s[k].id) == k
  {
  }

  /** `set` keeps the map invariant, stores `t` under its id and leaves every other id alone. */
  lemma SetToolSpec(s: seq<Tool>, t: Tool)
    requires UniqueIds(s)
    ensures UniqueIds(SetTool(s, t))
    ensures Lookup(SetTool(s, t), t.id) == Some(t)
    ensures forall id :: id != t.id ==> Lookup(SetTool(s, t), id) == Lookup(s, id)
  {
    var r := SetTool(s, t);
    var i := IdIndex(s, t.id);
    if i < 0 {
      assert forall k :: 0 <= k < |s| ==> r[k] == s[k];
      assert r[|s|] == t;
    } else {
      assert forall k :: 0 <= k < |s| && k != i ==> r[k] == s[k];
    }
    assert UniqueIds(r);
    IdIndexUnique(r, if i < 0 then |s| else i);
    forall id | id != t.id
      ensures Lookup(r, id) == Lookup(s, id)
    {
      var j := IdIndex(s, id);
      if j >= 0 {
        IdIndexUnique(r, j);
      }
    }
  }

  lemma RemoveUnique(s: seq<Tool>, i: int)
    requires UniqueIds(s) && 0 <= i < |s|
    ensures UniqueIds(s[..i] + s[i + 1..])
    ensures forall k :: 0 <= k < i ==> (s[..i] + s[i + 1..])[k] == s[k]
    ensures forall k :: i < k < |s| ==> (s[..i] + s[i + 1..])[k - 1] == s[k]
  {
  }

  lemma RemoveOther(s: seq<Tool>, i: int, x: string)
    requires UniqueIds(s) && 0 <= i < |s| && s[i].id != x
    ensures Lookup(s[..i] + s[i + 1..], x) == Lookup(s, x)
  {
    var r := s[..i] + s[i + 1..];
    RemoveUnique(s, i);
    var j := IdIndex(s, x);
    if j >= 0 {
      var k := if j < i then j else j - 1;
      assert r[k] == s[j];
      assert Lookup(r, x) == Some(s[j]) by {
        IdIndexUnique(r, k);
      }
    } else {
      assert Lookup(r, x).None? by {
        forall k | 0 <= k < |r|
          ensures r[k].id != x
        {
          if k >= i {
            assert r[k + 1 - 1] == s[k + 1];
          }
        }
      }
    }
  }

  /** `delete` keeps the map invariant, removes `id` and leaves every other id alone. */
  lemma RemoveSpec(s: seq<Tool>, id: string)
    requires UniqueIds(s)
    ensures UniqueIds(Remove(s, id))
    ensures Lookup(Remove(s, id), id) == None
    ensures forall x :: x != id ==> Lookup(Remove(s, id), x) == Lookup(s, x)
    ensures |Remove(s, id)| == if Lookup(s, id).Some? then |s| - 1 else |s|
  {
    var i := IdIndex(s, id);
    if i >= 0 {
      var r := Remove(s, id);
      RemoveUnique(s, i);
      forall k | 0 <= k < |r|
        ensures r[k].id != id
      {
        if k >= i {
          assert r[k + 1 - 1] == s[k + 1];
        }
      }
      forall x | x != id
        ensures Lookup(r, x) == Lookup(s, x)
      {
        RemoveOther(s, i, x);
      }
    }
  }

  /**
   * Loading the data file: `new Map(tools.map(t => [t.id, t]))`. A repeated id
   * keeps the position of its first occurrence and the value of its last.
   */
  function Load(file: seq<Tool>): (s: seq<Tool>)
    decreases |file|
  {
    if |file| == 0 then [] else SetTool(Load(file[..|file| - 1]), file[|file| - 1])
  }

  /** The loaded map has distinct ids and holds exactly the ids of the file. */
  lemma {:induction false} LoadSpec(file: seq<Tool>)
    ensures UniqueIds(Load(file))
    ensures forall id :: Lookup(Load(file), id).None? <==> forall j :: 0 <= j < |file| ==> file[j].id != id
    decreases |file|
  {
    if |file| > 0 {
      var n := |file| - 1;
      var init := file[..n];
      LoadSpec(init);
      SetToolSpec(Load(init), file[n]);
      assert forall j :: 0 <= j < n ==> init[j] == file[j];
    }
  }

  /** Each id is loaded with the last record in the file carrying it. */
  lemma {:induction false} LoadKeepsLast(file: seq<Tool>, k: int)
    requires 0 <= k < |file|
    requires forall j :: k < j < |file| ==> file[j].id != file[k].id
    ensures Lookup(Load(file), file[k].id) == Some(file[k])
    decreases |file|
  {
    var n := |file| - 1;
    var init := file[..n];
    LoadSpec(init);
    SetToolSpec(Load(init), file[n]);
    if k < n {
      assert init[k] == file[k];
      LoadKeepsLast(init, k);
    }
  }

  /** `getToolBySlug`: the first tool with that slug. */
  function GetToolBySlug(st: JsonStore, slug: string): (r: Option<Tool>)
    ensures r.None? <==> forall j :: 0 <= j < |st.tools| ==> st.tools[j].data.slug != slug
    ensures r.Some? ==> r.value in st.tools && r.value.data.slug == slug
  {
    Seqs.Find(st.tools, (t: Tool) => t.data.slug == slug)
  }

  /** `getToolByWebsiteUrl`: the first tool with that website. */
  function GetToolByWebsiteUrl(st: JsonStore, url: string): (r: Option<Tool>)
    ensures r.None? <==> forall j :: 0 <= j < |st.tools| ==> st.tools[j].data.websiteUrl != url
    ensures r.Some? ==> r.value in st.tools && r.value.data.websiteUrl == url
  {
    Seqs.Find(st.tools, (t: Tool) => t.data.websiteUrl == url)
  }

  /** Two tools clash when their names agree ignoring case or their websites are equal. */
  predicate Clashes(t: Tool, name: string, url: string) {
    Text.Lower(t.data.name) == Text.Lower(name) || t.data.websiteUrl == url
  }

  /** `findDuplicateTool`: the first stored tool clashing with `name`/`url`. */
  function FindDuplicateTool(st: JsonStore, name: string, url: string): (r: Option<Tool>)
    ensures r.None? <==> forall j :: 0 <= j < |st.tools| ==> !Clashes(st.tools[j], name, url)
    ensures r.Some? ==> r.value in st.tools && Clashes(r.value, name, url)
  {
    Seqs.Find(st.tools, (t: Tool) => Clashes(t, name, url))
  }

  /** Some tag of `tags` contains `q` (`tags.some(tag => tag.toLowerCase().includes(q))`). */
  predicate SomeTagIncludes(tags: seq<string>, q: string) {
    exists k :: 0 <= k < |tags| && Text.Includes(Text.Lower(tags[k]), q)
  }

  /** The search predicate of `searchTools`, with `q` already lower-cased. */
  predicate MatchesQuery(t: Tool, q: string) {
    || Text.Includes(Text.Lower(t.data.name), q)
    || Text.Includes(Text.Lower(t.data.description), q)
    || Text.Includes(Text.Lower(t.data.shortDescription), q)
    || SomeTagIncludes(t.data.tags, q)
    || Text.Includes(Text.Lower(t.data.category), q)
  }

  /** Reference meaning of a search hit: `q` occurs in one of the searched fields, lower-cased. */
  ghost predicate Mentions(t: Tool, q: string) {
    || Text.IsSubstring(q, Text.Lower(t.data.name))
    || Text.IsSubstring(q, Text.Lower(t.data.description))
    || Text.IsSubstring(q, Text.Lower(t.data.shortDescription))
    || (exists k :: 0 <= k < |t.data.tags| && Text.IsSubstring(q, Text.Lower(t.data.tags[k])))
    || Text.IsSubstring(q, Text.Lower(t.data.category))
  }

  /**
   * `searchTools`: the tools whose name, description, short description, some
   * tag or category contains the query, ignoring case; store order is kept.
   */
  function SearchTools(st: JsonStore, query: string): (r: seq<Tool>)
    ensures forall t :: t in r <==> t in st.tools && Mentions(t, Text.Lower(query))
  {
    var q := Text.Lower(query);
    Seqs.Filter(st.tools, (t: Tool) => MatchesQuery(t, q))
  }

  /** The empty query matches every tool. */
  lemma SearchEmptyIsAll(st: JsonStore)
    ensures SearchTools(st, "") == st.tools
  {
    forall k | 0 <= k < |st.tools|
      ensures MatchesQuery(st.tools[k], "")
    {
      Text.EmptyIsSubstring(Text.Lower(st.tools[k].data.name));
    }
    Seqs.FilterAll(st.tools, (t: Tool) => MatchesQuery(t, ""));
  }

  /** `getToolsByCategory`: the tools whose category equals the given one ignoring case. */
  function GetToolsByCategory(st: JsonStore, category: string): (r: seq<Tool>)
    ensures forall t :: t in r <==> t in st.tools && Text.Lower(t.data.category) == Text.Lower(category)
  {
    Seqs.Filter(st.tools, (t: Tool) => Text.Lower(t.data.category) == Text.Lower(category))
  }

  /**
   * `createTool`: rejects a read-only store and a clashing name or website;
   * otherwise stores the input under the fresh id `newId`, stamped with `today`.
   */
  function CreateTool(st: JsonStore, input: ToolData, newId: string, today: string)
    : (r: Result<(JsonStore, Tool), StoreError>)
    requires UniqueIds(st.tools)
    ensures st.readOnly ==> r == Failure(ReadOnly)
    ensures !st.readOnly ==> (r == Failure(Duplicate) <==>
      exists j :: 0 <= j < |st.tools| && Clashes(st.tools[j], input.name, input.websiteUrl))
    ensures r.Success? ==> r.value.1 == Tool(newId, input.(lastUpdated := today))
    ensures r.Success? ==> UniqueIds(r.value.0.tools) && r.value.0.readOnly == st.readOnly
    ensures r.Success? ==> Lookup(r.value.0.tools, newId) == Some(r.value.1)
    ensures r.Success? ==> forall id :: id != newId ==> Lookup(r.value.0.tools, id) == Lookup(st.tools, id)
  {
    if st.readOnly then Failure(ReadOnly)
    else if FindDuplicateTool(st, input.name, input.websiteUrl).Some? then Failure(Duplicate)
    else
      var tool := Tool(newId, input.(lastUpdated := today));
      SetToolSpec(st.tools, tool);
      Success((st.(tools := SetTool(st.tools, tool)), tool))
  }

  /** A fresh id is appended at the end: the listing order is creation order. */
  lemma CreateAppends(st: JsonStore, input: ToolData, newId: string, today: string)
    requires UniqueIds(st.tools) && Lookup(st.tools, newId).None?
    requires CreateTool(st, input, newId, today).Success?
    ensures CreateTool(st, input, newId, today).value.0.tools == st.tools + [Tool(newId, input.(lastUpdated := today))]
  {
  }

  /** `{...old, ...patch}` on the insertable fields. */
  function Spread(d: ToolData, p: Patch): ToolData {
    ToolData(
      p.slug.GetOr(d.slug), p.name.GetOr(d.name), p.description.GetOr(d.description),
      p.shortDescription.GetOr(d.shortDescription), p.category.GetOr(d.category),
      p.pricing.GetOr(d.pricing), p.websiteUrl.GetOr(d.websiteUrl),
      Assign(d.logoUrl, p.logoUrl), p.features.GetOr(d.features), p.tags.GetOr(d.tags),
      Assign(d.badge, p.badge), Assign(d.rating, p.rating),
      Assign(d.sourceDetailUrl, p.sourceDetailUrl), Assign(d.developer, p.developer),
      Assign(d.documentationUrl, p.documentationUrl), Assign(d.socialLinks, p.socialLinks),
      Assign(d.useCases, p.useCases), Assign(d.screenshots, p.screenshots),
      Assign(d.pricingDetails, p.pricingDetails), Assign(d.launchDate, p.launchDate),
      p.lastUpdated.GetOr(d.lastUpdated))
  }

  /** One optional field under object spread: an explicitly nullish key overwrites. */
  function Assign<T>(prev: Option<T>, u: Update<T>): Option<T> {
    match u
    case Keep => prev
    case Clear => None
    case Put(v) => Some(v)
  }

  /** Spreading the empty patch changes nothing. */
  lemma SpreadEmpty(d: ToolData)
    ensures Spread(d, EMPTY_PATCH) == d
  {
  }

  /** Spreading the same patch twice is spreading it once. */
  lemma SpreadIdempotent(d: ToolData, p: Patch)
    ensures Spread(Spread(d, p), p) == Spread(d, p)
  {
  }

  /** Spreading a complete record replaces every required field and every field it has. */
  lemma SpreadFull(d: ToolData, e: ToolData)
    ensures var r := Spread(d, FullPatch(e));
      r.(logoUrl := e.logoUrl, badge := e.badge, rating := e.rating,
         sourceDetailUrl := e.sourceDetailUrl, developer := e.developer,
         documentationUrl := e.documentationUrl, socialLinks := e.socialLinks,
         useCases := e.useCases, screenshots := e.screenshots,
         pricingDetails := e.pricingDetails, launchDate := e.launchDate) == e
  {
  }

  /**
   * `updateTool`: rejects a read-only store and an unknown id; otherwise
   * spreads the patch over the stored tool, keeps the id and stamps `today`.
   */
  function UpdateTool(st: JsonStore, id: string, p: Patch, today: string)
    : (r: Result<(JsonStore, Tool), StoreError>)
    requires UniqueIds(st.tools)
    ensures st.readOnly ==> r == Failure(ReadOnly)
    ensures !st.readOnly ==> (r == Failure(NotFound) <==> Lookup(st.tools, id).None?)
    ensures r.Success? ==> Lookup(st.tools, id).Some?
    ensures r.Success? ==> r.value.1 == Tool(id, Spread(Lookup(st.tools, id).value.data, p).(lastUpdated := today))
    ensures r.Success? ==> UniqueIds(r.value.0.tools) && |r.value.0.tools| == |st.tools|
    ensures r.Success? ==> Lookup(r.value.0.tools, id) == Some(r.value.1)
    ensures r.Success? ==> forall x :: x != id ==> Lookup(r.value.0.tools, x) == Lookup(st.tools, x)
  {
    if st.readOnly then Failure(ReadOnly)
    else
      match Lookup(st.tools, id)
      case None => Failure(NotFound)
      case Some(existing) =>
        var tool := Tool(id, Spread(existing.data, p).(lastUpdated := today));
        SetToolSpec(st.tools, tool);
        Success((st.(tools := SetTool(st.tools, tool)), tool))
  }

  /** An update with nothing in it only refreshes `lastUpdated`. */
  lemma UpdateEmptyTouchesOnlyDate(st: JsonStore, id: string, today: string)
    requires UniqueIds(st.tools) && !st.readOnly && Lookup(st.tools, id).Some?
    ensures var t := Lookup(st.tools, id).value;
      UpdateTool(st, id, EMPTY_PATCH, today) ==
        Success((st.(tools := SetTool(st.tools, t.(data := t.data.(lastUpdated := today)))),
                 t.(data := t.data.(lastUpdated := today))))
  {
    SpreadEmpty(Lookup(st.tools, id).value.data);
  }

  /** `deleteTool`: rejects a read-only store; otherwise removes `id` and says whether it was there. */
  function DeleteTool(st: JsonStore, id: string): (r: Result<(JsonStore, bool), StoreError>)
    requires UniqueIds(st.tools)
    ensures st.readOnly <==> r == Failure(ReadOnly)
    ensures r.Success? ==> (r.value.1 <==> Lookup(st.tools, id).Some?)
    ensures r.Success? ==> UniqueIds(r.value.0.tools) && Lookup(r.value.0.tools, id).None?
    ensures r.Success? ==> forall x :: x != id ==> Lookup(r.value.0.tools, x) == Lookup(st.tools, x)
    ensures r.Success? && !r.value.1 ==> r.value.0 == st
  {
    if st.readOnly then Failure(ReadOnly)
    else
      RemoveSpec(st.tools, id);
      Success((st.(tools := Remove(st.tools, id)), Lookup(st.tools, id).Some?))
  }

  /** Creating a tool and then deleting it leaves every other tool as it was. */
  lemma CreateThenDelete(st: JsonStore, input: ToolData, newId: string, today: string)
    requires UniqueIds(st.tools) && CreateTool(st, input, newId, today).Success?
    ensures var st1 := CreateTool(st, input, newId, today).value.0;
      DeleteTool(st1, newId).Success? && DeleteTool(st1, newId).value.1 &&
      Lookup(DeleteTool(st1, newId).value.0.tools, newId).None? &&
      forall x :: x != newId ==> Lookup(DeleteTool(st1, newId).value.0.tools, x) == Lookup(st.tools, x)
  {
  }
}
