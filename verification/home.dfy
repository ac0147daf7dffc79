/**
 * The public catalogue page `client/src/pages/Home.tsx`: the category chips
 * (each category once, in order of first appearance) and the client-side
 * filter over the fetched tools. Unlike the server's search it looks at
 * the tags and not at the short description.
 */
module Home {
  import opened Wrappers
  import opened Schema
  import Text
  import Seqs

  /** `tool.tags.some(tag => tag.toLowerCase().includes(lq))`. */
  predicate SomeTagIncludes(tags: seq<string>, lq: string) {
    Seqs.FindIndex(tags, (tag: string) => Text.Includes(Text.Lower(tag), lq)) >= 0
  }

  /** `matchesSearch`: an empty query matches; otherwise a case-insensitive substring of name, description or a tag. */
  predicate MatchesSearch(t: Tool, query: string) {
    var lq := Text.Lower(query);
    || query == ""
    || Text.Includes(Text.Lower(t.data.name), lq)
    || Text.Includes(Text.Lower(t.data.description), lq)
    || SomeTagIncludes(t.data.tags, lq)
  }

  /** `matchesCategory`: no selection matches; otherwise the category must be equal. */
  predicate MatchesCategory(t: Tool, selected: Option<string>) {
    selected.None? || t.data.category == selected.value
  }

  /** The reference meaning of the filter, in terms of substrings rather than the scanning `includes`. */
  ghost predicate Wanted(t: Tool, query: string, selected: Option<string>) {
    var lq := Text.Lower(query);
    && (query == ""
        || Text.IsSubstring(lq, Text.Lower(t.data.name))
        || Text.IsSubstring(lq, Text.Lower(t.data.description))
        || exists k :: 0 <= k < |t.data.tags| && Text.IsSubstring(lq, Text.Lower(t.data.tags[k])))
    && (selected.None? || t.data.category == selected.value)
  }

  /** `filteredTools`: the tools passing both tests, in their fetched order. */
  function FilteredTools(tools: seq<Tool>, query: string, selected: Option<string>): (r: seq<Tool>)
    ensures |r| <= |tools|
  {
    Seqs.Filter(tools, (t: Tool) => MatchesSearch(t, query) && MatchesCategory(t, selected))
  }

  /** The computed filter and the reference meaning agree on every tool. */
  lemma MatchesIsWanted(t: Tool, query: string, selected: Option<string>)
    ensures MatchesSearch(t, query) && MatchesCategory(t, selected) <==> Wanted(t, query, selected)
  {
    var lq := Text.Lower(query);
    var p := (tag: string) => Text.Includes(Text.Lower(tag), lq);
    var i := Seqs.FindIndex(t.data.tags, p);
    if i >= 0 {
      assert Text.IsSubstring(lq, Text.Lower(t.data.tags[i]));
    }
  }

  /** Exactly the wanted tools are shown. */
  lemma FilteredAreWanted(tools: seq<Tool>, query: string, selected: Option<string>)
    ensures forall t :: t in FilteredTools(tools, query, selected) <==> t in tools && Wanted(t, query, selected)
  {
    forall t
      ensures t in FilteredTools(tools, query, selected) <==> t in tools && Wanted(t, query, selected)
    {
      MatchesIsWanted(t, query, selected);
    }
  }

  /** An empty query with no category selected shows every tool, in order. */
  lemma UnfilteredShowsAll(tools: seq<Tool>)
    ensures FilteredTools(tools, "", None) == tools
  {
    Seqs.FilterAll(tools, (t: Tool) => MatchesSearch(t, "") && MatchesCategory(t, None));
  }

  /** Filtering keeps the fetched order: it distributes over any split of the list. */
  lemma FilterKeepsOrder(a: seq<Tool>, b: seq<Tool>, query: string, selected: Option<string>)
    ensures FilteredTools(a + b, query, selected) == FilteredTools(a, query, selected) + FilteredTools(b, query, selected)
  {
    Seqs.FilterConcat(a, b, (t: Tool) => MatchesSearch(t, query) && MatchesCategory(t, selected));
  }

  /** Two tools that differ only in their short description are filtered alike. */
  lemma ShortDescriptionIgnored(t: Tool, u: Tool, query: string, selected: Option<string>)
    requires u.id == t.id && u.data == t.data.(shortDescription := u.data.shortDescription)
    ensures MatchesSearch(t, query) && MatchesCategory(t, selected) <==> MatchesSearch(u, query) && MatchesCategory(u, selected)
  {
  }

  /** `tools.map(tool => tool.category)`. */
  function CategoryNames(tools: seq<Tool>): (names: seq<string>)
    ensures |names| == |tools| && forall k :: 0 <= k < |tools| ==> names[k] == tools[k].data.category
  {
    Seqs.Map(tools, (t: Tool) => t.data.category)
  }

  /**
   * `categories`: `Array.from(new Set(tools.map(tool => tool.category)))`,
   * collected with a membership set as the `Set` does.
   */
  method Categories(tools: seq<Tool>) returns (cats: seq<string>)
    ensures Seqs.NoDuplicates(cats)
    ensures forall c :: c in cats <==> c in CategoryNames(tools)
    ensures forall c :: c in cats <==> exists k :: 0 <= k < |tools| && tools[k].data.category == c
    ensures forall i, j :: 0 <= i < j < |cats| ==>
      Seqs.FirstIndex(CategoryNames(tools), cats[i]) < Seqs.FirstIndex(CategoryNames(tools), cats[j])
  {
    var names := CategoryNames(tools);
    var seen: set<string> := {};
    cats := [];
    for i := 0 to |names|
      invariant cats == Seqs.Distinct(names[..i])
      invariant forall c :: c in seen <==> c in cats
    {
      assert names[..i + 1][..i] == names[..i];
      var c := names[i];
      if c !in seen {
        seen := seen + {c};
        cats := cats + [c];
      }
    }
    assert names[..|names|] == names;
    Seqs.DistinctSpec(names);
    forall c | c in names
      ensures exists k :: 0 <= k < |tools| && tools[k].data.category == c
    {
      var k :| 0 <= k < |names| && names[k] == c;
    }
  }
}
