/**
 * The submit step of the admin editor `client/src/components/ToolForm.tsx`:
 * `features` and `tags` may be typed as one comma-separated string; on
 * submit such a string becomes the list of its trimmed, non-empty items,
 * an array passes through, and every other field is sent as it was.
 */
module ToolForm {
  import opened Json
  import Text
  import Seqs

  /** `s.split(',').map(f => f.trim()).filter(Boolean)`. */
  function CommaItems(s: string): (items: seq<string>)
    ensures forall k :: 0 <= k < |items| ==> CleanItem(items[k])
  {
    var pieces := Text.Split(s, ',');
    var trimmed := TrimAll(pieces);
    assert forall k :: 0 <= k < |trimmed| ==> ',' !in trimmed[k] && Text.NoEdgeSpace(trimmed[k], Text.IsJsSpace) by {
      assert forall k :: 0 <= k < |pieces| ==> ',' !in pieces[k];
    }
    Seqs.FilterKeeps(trimmed, NonEmpty, (x: string) => ',' !in x && Text.NoEdgeSpace(x, Text.IsJsSpace));
    Seqs.Filter(trimmed, NonEmpty)
  }

  predicate NonEmpty(x: string) {
    x != ""
  }

  /** Items that are non-empty, comma-free and trimmed are what a comma list can carry. */
  predicate CleanItem(x: string) {
    x != "" && ',' !in x && Text.NoEdgeSpace(x, Text.IsJsSpace)
  }

  /** Each piece trimmed; trimming adds no comma. */
  function TrimAll(pieces: seq<string>): (r: seq<string>)
    ensures |r| == |pieces|
    ensures forall k :: 0 <= k < |r| ==> r[k] == Text.Trim(pieces[k])
    ensures forall k :: 0 <= k < |r| ==> Text.NoEdgeSpace(r[k], Text.IsJsSpace)
    ensures forall k :: 0 <= k < |r| ==> ',' !in pieces[k] ==> ',' !in r[k]
  {
    forall k | 0 <= k < |pieces| && ',' !in pieces[k]
      ensures ',' !in Text.Trim(pieces[k])
    {
      Text.TrimKeeps(pieces[k], ',');
    }
    Seqs.Map(pieces, Text.Trim)
  }

  /** Trimming leaves clean items alone. */
  lemma TrimAllClean(items: seq<string>)
    requires forall k :: 0 <= k < |items| ==> CleanItem(items[k])
    ensures TrimAll(items) == items
  {
    forall k | 0 <= k < |items|
      ensures Text.Trim(items[k]) == items[k]
    {
      Text.TrimOfTrimmed(items[k], Text.IsJsSpace);
    }
  }

  /** Writing clean items joined by commas and submitting gives the items back. */
  lemma CommaItemsJoin(items: seq<string>)
    requires forall k :: 0 <= k < |items| ==> CleanItem(items[k])
    ensures CommaItems(Text.Join(items, ",")) == items
  {
    if |items| == 0 {
      assert Text.Split("", ',') == [""];
      assert TrimAll([""]) == [""];
    } else {
      assert "," == [','];
      Text.SplitJoin(items, ',');
      TrimAllClean(items);
      Seqs.FilterAll(items, NonEmpty);
    }
  }

  /** Parsing is idempotent: resubmitting the parsed list, comma-joined, changes nothing. */
  lemma CommaItemsIdempotent(s: string)
    ensures CommaItems(Text.Join(CommaItems(s), ",")) == CommaItems(s)
  {
    CommaItemsJoin(CommaItems(s));
  }

  /** The list a `features` or `tags` value is submitted as: a string is parsed, anything else passes through. */
  function ListField(v: JsVal): (r: JsVal)
    ensures v.Str? ==> r.Arr? && |r.items| == |CommaItems(v.s)|
    ensures v.Str? ==> forall k :: 0 <= k < |r.items| ==> r.items[k] == Str(CommaItems(v.s)[k])
    ensures !v.Str? ==> r == v
  {
    if v.Str? then Arr(Seqs.Map(CommaItems(v.s), (x: string) => Str(x))) else v
  }

  /** `onSubmit({ ...data, features, tags })`. */
  function Submit(data: JsObject): (r: JsObject)
    ensures r.Keys == data.Keys + {"features", "tags"}
    ensures forall k :: k in data && k != "features" && k != "tags" ==> r[k] == data[k]
    ensures r["features"] == ListField(Get(data, "features")) && r["tags"] == ListField(Get(data, "tags"))
  {
    data["features" := ListField(Get(data, "features"))]["tags" := ListField(Get(data, "tags"))]
  }

  /** Submitting twice is submitting once: the second pass sees arrays and leaves them. */
  lemma SubmitIdempotent(data: JsObject)
    ensures Submit(Submit(data)) == Submit(data)
  {
    var once := Submit(data);
    assert Get(once, "features").Arr? || !Get(data, "features").Str?;
    assert Get(once, "tags").Arr? || !Get(data, "tags").Str?;
  }
}
