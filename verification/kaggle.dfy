/**
 * The normalisers of `scripts/import_kaggle_data.py`, which turns a Kaggle
 * table of AI tools into records of the application's schema and writes
 * them out as CSV (for the CSV import endpoint) and JSON. Text handling is
 * restricted to ASCII; Python's `str()` of a cell or value and `float()` are
 * parameters (`Py`), and `Lawful` states the facts about them the proofs use.
 */
module Kaggle {
  import opened Wrappers
  import opened Json
  import Text
  import Seqs
  import CsvImport
  import Schema

  /** A pandas cell: missing (`NaN`/`None`), a string, a number, or a list of strings. */
  datatype Cell = NA | PyStr(s: string) | PyNum(x: real) | PyList(items: seq<string>)

  /**
   * The Python built-ins the script applies to values it does not control:
   * `str` of a cell, `float` of a string (`None` when it raises), and `str`
   * of an output value.
   */
  datatype Py = Py(str: Cell -> string, float: string -> Option<real>, show: JsVal -> string)

  /** `str` leaves strings alone and prints a missing cell as `nan`. */
  ghost predicate Lawful(py: Py) {
    && (forall s :: py.str(PyStr(s)) == s)
    && py.str(NA) == "nan"
    && (forall s :: py.show(Str(s)) == s)
  }

  /** Python truthiness of a cell; `NaN` is truthy. */
  predicate Truthy(c: Cell) {
    match c
    case NA => true
    case PyStr(s) => s != ""
    case PyNum(x) => x != 0.0
    case PyList(items) => |items| > 0
  }

  /** `pd.isna(value) or not value`. */
  predicate Blank(c: Cell) {
    c.NA? || !Truthy(c)
  }

  // ---------------------------------------------------------------- slugify

  /** Python `\w`, ASCII part. */
  predicate IsWordChar(c: char) {
    'a' <= c <= 'z' || 'A' <= c <= 'Z' || '0' <= c <= '9' || c == '_'
  }

  /** The class `[-\s]` whose runs become one hyphen. */
  predicate IsSep(c: char) {
    c == '-' || Text.IsPySpace(c)
  }

  /** The class `[\w\s-]` that survives the first substitution. */
  predicate KeptBySlug(c: char) {
    IsWordChar(c) || IsSep(c)
  }

  predicate NotSep(c: char) {
    !IsSep(c)
  }

  /** A character a slug may contain: lower-case letters, digits, `_` and `-`. */
  predicate IsSlugChar(c: char) {
    'a' <= c <= 'z' || '0' <= c <= '9' || c == '_' || c == '-'
  }

  /** Slug characters only, and never two hyphens in a row. */
  predicate IsSlug(s: string) {
    && (forall k :: 0 <= k < |s| ==> IsSlugChar(s[k]))
    && (forall k :: 0 <= k < |s| - 1 ==> !(s[k] == '-' && s[k + 1] == '-'))
  }

  /** `re.sub(r'[^\w\s-]', '', text)`. */
  function KeepSlugChars(s: string): (r: string)
    ensures forall k :: 0 <= k < |r| ==> KeptBySlug(r[k]) && r[k] in s
  {
    Seqs.Filter(s, KeptBySlug)
  }

  /** `re.sub(r'[-\s]+', '-', text)`: each maximal run of hyphens and whitespace becomes one hyphen. */
  function Collapse(s: string): (r: string)
    ensures forall k :: 0 <= k < |r| ==> !Text.IsPySpace(r[k])
    ensures forall k :: 0 <= k < |r| - 1 ==> !(r[k] == '-' && r[k + 1] == '-')
    ensures |s| > 0 ==> |r| > 0 && (r[0] == '-' <==> IsSep(s[0]))
    ensures (forall k :: 0 <= k < |s| ==> IsSlugChar(s[k]) || Text.IsPySpace(s[k])) ==>
      forall k :: 0 <= k < |r| ==> IsSlugChar(r[k])
    decreases |s|
  {
    if |s| == 0 then ""
    else if IsSep(s[0]) then
      var rest := Text.TrimLeft(s, IsSep);
      assert |rest| < |s|;
      "-" + Collapse(rest)
    else [s[0]] + Collapse(s[1..])
  }

  /** Collapsing keeps every character that is not a separator, in order: only separator runs change. */
  lemma {:induction false} CollapseKeepsWords(s: string)
    ensures Seqs.Filter(Collapse(s), NotSep) == Seqs.Filter(s, NotSep)
    decreases |s|
  {
    if |s| > 0 {
      if IsSep(s[0]) {
        var rest := Text.TrimLeft(s, IsSep);
        assert Collapse(s) == "-" + Collapse(rest);
        CollapseKeepsWords(rest);
        Seqs.FilterConcat("-", Collapse(rest), NotSep);
        RunHasNoWords(s);
      } else {
        assert Collapse(s) == [s[0]] + Collapse(s[1..]);
        CollapseKeepsWords(s[1..]);
        Seqs.FilterConcat([s[0]], Collapse(s[1..]), NotSep);
        assert s == [s[0]] + s[1..];
        Seqs.FilterConcat([s[0]], s[1..], NotSep);
      }
    }
  }

  /** Dropping a leading separator run drops no word character. */
  lemma RunHasNoWords(s: string)
    ensures Seqs.Filter(Text.TrimLeft(s, IsSep), NotSep) == Seqs.Filter(s, NotSep)
  {
    var rest := Text.TrimLeft(s, IsSep);
    var d := |s| - |rest|;
    var run := s[..d];
    assert s == run + rest;
    Seqs.FilterConcat(run, rest, NotSep);
    assert Seqs.Filter(run, NotSep) == [] by {
      assert forall k :: 0 <= k < |run| ==> run[k] == s[k];
      Seqs.FilterNone(run, NotSep);
    }
  }

  /** A string that is already a slug collapses to itself. */
  lemma {:induction false} CollapseOfSlug(s: string)
    requires IsSlug(s)
    ensures Collapse(s) == s
    decreases |s|
  {
    if |s| > 0 {
      var tail := s[1..];
      SlugTail(s);
      CollapseOfSlug(tail);
      CollapseStep(s[0], tail);
      assert s == [s[0]] + tail;
    }
  }

  /** What a slug's first character and its tail keep of the slug property. */
  lemma SlugTail(s: string)
    requires IsSlug(s) && |s| > 0
    ensures IsSlug(s[1..]) && IsSlugChar(s[0])
    ensures |s| > 1 ==> IsSlugChar(s[1]) && !(s[0] == '-' && s[1] == '-')
  {
    var tail := s[1..];
    assert forall k :: 0 <= k < |tail| ==> tail[k] == s[k + 1];
  }

  /** One step of `CollapseOfSlug`: a slug character in front of a string that collapses to itself. */
  lemma CollapseStep(c: char, tail: string)
    requires IsSlugChar(c) && Collapse(tail) == tail
    requires |tail| > 0 ==> IsSlugChar(tail[0]) && !(c == '-' && tail[0] == '-')
    ensures Collapse([c] + tail) == [c] + tail
  {
    var s := [c] + tail;
    assert s[0] == c && s[1..] == tail;
    if c == '-' {
      assert Text.TrimLeft(tail, IsSep) == tail;
      assert Text.TrimLeft(s, IsSep) == tail;
    }
  }

  /** ASCII lower-casing leaves no upper-case letter. */
  lemma LowerHasNoUpper(s: string)
    ensures forall c :: c in Text.Lower(s) ==> !('A' <= c <= 'Z')
  {
    var low := Text.Lower(s);
    forall c | c in low
      ensures !('A' <= c <= 'Z')
    {
      var j :| 0 <= j < |low| && low[j] == c;
    }
  }

  function SlugifyText(text: string): (slug: string)
    ensures IsSlug(slug)
  {
    var t := Text.Strip(Text.Lower(text));
    var kept := KeepSlugChars(t);
    SlugChars(text);
    Collapse(kept)
  }

  lemma SlugChars(text: string)
    ensures var kept := KeepSlugChars(Text.Strip(Text.Lower(text)));
      forall k :: 0 <= k < |kept| ==> IsSlugChar(kept[k]) || Text.IsPySpace(kept[k])
  {
    var t := Text.Strip(Text.Lower(text));
    var kept := KeepSlugChars(t);
    StripLowerHasNoUpper(text);
    forall k | 0 <= k < |kept|
      ensures IsSlugChar(kept[k]) || Text.IsPySpace(kept[k])
    {
      assert kept[k] in t;
    }
  }

  /** Stripping the lower-cased text brings no upper-case letter back. */
  lemma StripLowerHasNoUpper(text: string)
    ensures forall c :: c in Text.Strip(Text.Lower(text)) ==> !('A' <= c <= 'Z')
  {
    Text.StripWithin(Text.Lower(text));
    LowerHasNoUpper(text);
  }

  /** `slugify(text)`: a missing or falsy cell gives the empty slug. */
  function Slugify(text: Cell, py: Py): (slug: string)
    ensures IsSlug(slug)
    ensures Blank(text) ==> slug == ""
  {
    if Blank(text) then "" else SlugifyText(py.str(text))
  }

  /** A slug is its own slug: `slugify` is idempotent. */
  lemma SlugifyIdempotent(text: string)
    ensures SlugifyText(SlugifyText(text)) == SlugifyText(text)
  {
    var r := SlugifyText(text);
    SlugPrepared(r);
    CollapseOfSlug(r);
  }

  /** The preparation steps before the collapse leave a slug unchanged. */
  lemma SlugPrepared(r: string)
    requires IsSlug(r)
    ensures KeepSlugChars(Text.Strip(Text.Lower(r))) == r
  {
    assert Text.Lower(r) == r by {
      forall k | 0 <= k < |r|
        ensures Text.Lower(r)[k] == r[k]
      {
        assert IsSlugChar(r[k]);
      }
    }
    assert Text.Strip(r) == r by {
      assert forall k :: 0 <= k < |r| ==> !Text.IsPySpace(r[k]);
      assert Text.Strip(r) == Text.TrimBy(r, Text.IsPySpace);
    }
    assert forall k :: 0 <= k < |r| ==> KeptBySlug(r[k]);
    Seqs.FilterAll(r, KeptBySlug);
  }

  // ---------------------------------------------------------------- parse_pricing

  const UNKNOWN := "Unknown"

  /** `parse_pricing` as written: `"free"` is tested before `"freemium"`. */
  function ParsePricingAsWritten(value: Cell, py: Py): (kind: string)
    ensures Blank(value) ==> kind == UNKNOWN
    ensures !Blank(value) && Text.Includes(Text.Lower(py.str(value)), "free") ==> kind == "Free"
  {
    if Blank(value) then UNKNOWN
    else
      var v := Text.Lower(py.str(value));
      if Text.Includes(v, "free") then "Free"
      else if Text.Includes(v, "freemium") then "Freemium"
      else if Text.Includes(v, "paid") || Text.Includes(v, "$") then "Paid"
      else if Text.Includes(v, "enterprise") then "Enterprise"
      else Text.Strip(py.str(value))
  }

  /** `parse_pricing` as intended: the more specific `"freemium"` is tested first. */
  function ParsePricing(value: Cell, py: Py): (kind: string)
    ensures Blank(value) ==> kind == UNKNOWN
    ensures !Blank(value) && Text.Includes(Text.Lower(py.str(value)), "freemium") ==> kind == "Freemium"
    ensures (!Blank(value) && Text.Includes(Text.Lower(py.str(value)), "free") &&
             !Text.Includes(Text.Lower(py.str(value)), "freemium")) ==> kind == "Free"
  {
    if Blank(value) then UNKNOWN
    else
      var v := Text.Lower(py.str(value));
      if Text.Includes(v, "freemium") then "Freemium"
      else if Text.Includes(v, "free") then "Free"
      else if Text.Includes(v, "paid") || Text.Includes(v, "$") then "Paid"
      else if Text.Includes(v, "enterprise") then "Enterprise"
      else Text.Strip(py.str(value))
  }

  /** Every text holding `freemium` holds `free`. */
  lemma FreemiumHoldsFree(v: string)
    requires Text.IsSubstring("freemium", v)
    ensures Text.IsSubstring("free", v)
  {
    var i :| Text.OccursAt("freemium", v, i);
    assert v[i..i + 4] == v[i..i + 8][..4];
    assert Text.OccursAt("free", v, i);
  }

  lemma LowerFreemium()
    ensures Text.Lower("Freemium") == "freemium"
  {
    var v := Text.Lower("Freemium");
    forall k | 0 <= k < 8
      ensures v[k] == "freemium"[k]
    {
    }
  }

  /** A text whose stripped form is `Freemium` holds `free` once lower-cased. */
  lemma StrippedFreemium(x: string)
    requires Text.Strip(x) == "Freemium"
    ensures Text.IsSubstring("free", Text.Lower(x))
  {
    Text.StripInside(x);
    LowerFreemium();
    var i :| Text.OccursAt("freemium", Text.Lower(x), i);
    FreemiumHoldsFree(Text.Lower(x));
  }

  /** As written, no cell is ever labelled `Freemium`: the branch is unreachable. */
  lemma FreemiumUnreachable(value: Cell, py: Py)
    ensures ParsePricingAsWritten(value, py) != "Freemium"
  {
    if !Blank(value) {
      var x := py.str(value);
      var v := Text.Lower(x);
      if !Text.Includes(v, "free") {
        assert !Text.Includes(v, "freemium") by {
          if Text.IsSubstring("freemium", v) {
            FreemiumHoldsFree(v);
          }
        }
        assert Text.Strip(x) != "Freemium" by {
          if Text.Strip(x) == "Freemium" {
            StrippedFreemium(x);
          }
        }
      }
    }
  }

  /** The fix changes nothing but the labels of texts that hold `freemium`. */
  lemma PricingFixIsLocal(value: Cell, py: Py)
    requires Blank(value) || !Text.Includes(Text.Lower(py.str(value)), "freemium")
    ensures ParsePricing(value, py) == ParsePricingAsWritten(value, py)
  {
  }

  /** Corrected, `Freemium` is the label of exactly the texts holding `freemium`. */
  lemma FreemiumReachable(value: Cell, py: Py)
    ensures ParsePricing(value, py) == "Freemium" <==> !Blank(value) && Text.Includes(Text.Lower(py.str(value)), "freemium")
  {
    if !Blank(value) {
      var x := py.str(value);
      var v := Text.Lower(x);
      if !Text.Includes(v, "freemium") && !Text.Includes(v, "free") && Text.Strip(x) == "Freemium" {
        StrippedFreemium(x);
      }
    }
  }

  /** The cell `"Freemium"` itself: labelled `Free` as written, `Freemium` once corrected. */
  lemma PricingFindingExample(py: Py)
    requires Lawful(py)
    ensures ParsePricingAsWritten(PyStr("Freemium"), py) == "Free"
    ensures ParsePricing(PyStr("Freemium"), py) == "Freemium"
  {
    LowerFreemium();
    var v := Text.Lower("Freemium");
    assert Text.OccursAt("freemium", v, 0);
    FreemiumHoldsFree(v);
  }

  /** Which `parse_pricing` labels the cells: the script's own, or the one that tests `freemium` first. */
  datatype PricingRule = AsWritten | Corrected

  function PriceLabel(rule: PricingRule, value: Cell, py: Py): (kind: string)
    ensures rule == AsWritten ==> kind != "Freemium"
    ensures rule == Corrected ==>
      (kind == "Freemium" <==> !Blank(value) && Text.Includes(Text.Lower(py.str(value)), "freemium"))
  {
    match rule
    case AsWritten => FreemiumUnreachable(value, py); ParsePricingAsWritten(value, py)
    case Corrected => FreemiumReachable(value, py); ParsePricing(value, py)
  }

  // ---------------------------------------------------------------- parse_list

  predicate NonBlank(s: string) {
    s != ""
  }

  /** Each item stripped with Python's `strip()`. */
  function StripAll(items: seq<string>): (r: seq<string>)
    ensures |r| == |items|
    ensures forall k :: 0 <= k < |r| ==> r[k] == Text.Strip(items[k])
    ensures forall k :: 0 <= k < |r| ==> Text.NoEdgeSpace(r[k], Text.IsPySpace)
  {
    Seqs.Map(items, Text.Strip)
  }

  /** The comma-separated pieces of a text, stripped: none holds a comma. */
  function CommaPieces(s: string): (r: seq<string>)
    ensures forall k :: 0 <= k < |r| ==> ',' !in r[k] && Text.NoEdgeSpace(r[k], Text.IsPySpace)
  {
    var pieces := Text.Split(s, ',');
    StripAllKeeps(pieces, ',');
    StripAll(pieces)
  }

  lemma StripAllKeeps(pieces: seq<string>, c: char)
    requires forall k :: 0 <= k < |pieces| ==> c !in pieces[k]
    ensures forall k :: 0 <= k < |pieces| ==> c !in StripAll(pieces)[k]
  {
    forall k | 0 <= k < |pieces|
      ensures c !in StripAll(pieces)[k]
    {
      StripKeeps(pieces[k], c);
    }
  }

  /**
   * `parse_list(value, ",")`: a blank cell gives `[]`; a list drops its empty
   * items and strips the rest; anything else is split on commas, stripped,
   * and blank items dropped.
   */
  function ParseList(value: Cell, py: Py): (r: seq<string>)
    ensures Blank(value) ==> r == []
    ensures forall k :: 0 <= k < |r| ==> Text.NoEdgeSpace(r[k], Text.IsPySpace)
    ensures !Blank(value) && !value.PyList? ==> forall k :: 0 <= k < |r| ==> CleanItem(r[k])
    ensures value.PyList? ==> |r| <= |value.items|
  {
    if Blank(value) then []
    else if value.PyList? then StripAll(Seqs.Filter(value.items, NonBlank))
    else
      var pieces := CommaPieces(py.str(value));
      var r := Seqs.Filter(pieces, NonBlank);
      Seqs.FilterKeeps(pieces, NonBlank, (x: string) => ',' !in x && Text.NoEdgeSpace(x, Text.IsPySpace));
      r
  }

  /** Stripping never brings in a character that was not there. */
  lemma StripKeeps(s: string, c: char)
    requires c !in s
    ensures c !in Text.Strip(s)
  {
    var i := Text.TrimBySlice(s, Text.IsPySpace);
    var r := Text.Strip(s);
    assert forall k :: 0 <= k < |r| ==> r[k] == s[i + k];
  }

  /** Items that a comma list can carry unchanged: non-empty, comma-free and stripped. */
  predicate CleanItem(x: string) {
    x != "" && ',' !in x && Text.NoEdgeSpace(x, Text.IsPySpace)
  }

  /** Clean items joined with commas parse back to themselves. */
  lemma ParseListJoin(items: seq<string>, py: Py)
    requires Lawful(py)
    requires forall k :: 0 <= k < |items| ==> CleanItem(items[k])
    ensures ParseList(PyStr(Text.Join(items, ",")), py) == items
  {
    if |items| > 0 {
      var s := Text.Join(items, ",");
      assert "," == [','];
      Text.SplitJoin(items, ',');
      JoinStartsWithFirst(items, ",");
      assert s != "";
      ParseListText(s, py);
      StripAllClean(items);
      Seqs.FilterAll(items, NonBlank);
    }
  }

  /** A non-empty text parses as its comma pieces, stripped, without the blank ones. */
  lemma ParseListText(s: string, py: Py)
    requires Lawful(py) && s != ""
    ensures ParseList(PyStr(s), py) == Seqs.Filter(StripAll(Text.Split(s, ',')), NonBlank)
  {
    assert py.str(PyStr(s)) == s;
  }

  /** Stripped items are left alone by stripping. */
  lemma StripAllClean(items: seq<string>)
    requires forall k :: 0 <= k < |items| ==> Text.NoEdgeSpace(items[k], Text.IsPySpace)
    ensures StripAll(items) == items
  {
    forall k | 0 <= k < |items|
      ensures Text.Strip(items[k]) == items[k]
    {
      Text.TrimOfTrimmed(items[k], Text.IsPySpace);
    }
  }

  /** A join of several parts starts with the first part. */
  lemma JoinStartsWithFirst(parts: seq<string>, sep: string)
    requires |parts| > 0
    ensures |Text.Join(parts, sep)| >= |parts[0]| && Text.Join(parts, sep)[..|parts[0]|] == parts[0]
  {
  }

  /** A list item of blanks survives the `if v` test and becomes an empty string. */
  lemma BlankListItemKept(py: Py)
    ensures ParseList(PyList(["  "]), py) == [""]
  {
    assert Seqs.Filter(["  "], NonBlank) == ["  "];
    assert Text.Strip("  ") == "" by {
      var i := Text.TrimBySlice("  ", Text.IsPySpace);
    }
  }

  // ---------------------------------------------------------------- rating

  /** The distance between two numbers. */
  function Dist(a: real, b: real): real {
    if a < b then b - a else a - b
  }

  /** `max(0, min(5, x))`: the point of [0, 5] nearest to `x`. */
  function Clamp(x: real): (r: real)
    ensures 0.0 <= r <= 5.0
    ensures forall y :: 0.0 <= y <= 5.0 ==> Dist(r, x) <= Dist(y, x)
  {
    var m := if x < 5.0 then x else 5.0;
    if m > 0.0 then m else 0.0
  }

  /**
   * The rating of a row: `None` for a missing cell or one `float()` rejects
   * (a list among them), otherwise the number clamped into [0, 5].
   */
  function RatingOf(c: Cell, py: Py): (r: Option<real>)
    ensures r.Some? ==> 0.0 <= r.value <= 5.0
    ensures c.NA? || c.PyList? ==> r.None?
    ensures c.PyNum? ==> r == Some(Clamp(c.x))
    ensures c.PyStr? ==> (r.Some? <==> py.float(c.s).Some?)
  {
    match c
    case NA => None
    case PyNum(x) => Some(Clamp(x))
    case PyStr(s) => (match py.float(s) case None => None case Some(x) => Some(Clamp(x)))
    case PyList(_) => None
  }

  /** A rating already in [0, 5] is kept as it is. */
  lemma RatingInRangeKept(x: real, py: Py)
    requires 0.0 <= x <= 5.0
    ensures RatingOf(PyNum(x), py) == Some(x)
  {
    assert Dist(Clamp(x), x) <= Dist(x, x);
  }

  // ---------------------------------------------------------------- records

  /** A pandas row: the table's columns with their cells. */
  type Row = map<string, Cell>

  /** `row.get(k1, row.get(k2, ... d))`: the cell of the first column the table has, else the default. */
  function RowGet(row: Row, keys: seq<string>, d: Cell): (c: Cell)
    ensures (forall k :: 0 <= k < |keys| ==> keys[k] !in row) ==> c == d
    ensures forall i :: 0 <= i < |keys| && keys[i] in row && (forall j :: 0 <= j < i ==> keys[j] !in row) ==>
      c == row[keys[i]]
  {
    if |keys| == 0 then d
    else if keys[0] in row then row[keys[0]]
    else RowGet(row, keys[1..], d)
  }

  /** `str(row.get(...)).strip()`. */
  function Field(row: Row, keys: seq<string>, d: string, py: Py): (s: string)
    ensures Text.NoEdgeSpace(s, Text.IsPySpace)
  {
    Text.Strip(py.str(RowGet(row, keys, PyStr(d))))
  }

  /** `value or None` for a text value. */
  function OrNone(s: string): (v: JsVal)
    ensures v.Null? <==> s == ""
    ensures s != "" ==> v == Str(s)
  {
    if s == "" then Null else Str(s)
  }

  /** Python's `s[:n]`. */
  function Take(s: string, n: nat): (r: string)
    ensures |r| == if |s| <= n then |s| else n
    ensures r == s[..|r|]
  {
    if |s| <= n then s else s[..n]
  }

  /** `pd.notna(row.get(col))`: the table has the column and the cell is not missing. */
  predicate Present(row: Row, col: string) {
    col in row && !row[col].NA?
  }

  /** The optional cells `(column, key)` gathered into an object, each stripped under its key. */
  function Gather(row: Row, cols: seq<(string, string)>, py: Py): (o: map<string, JsVal>)
    ensures forall key :: key in o <==> exists k :: 0 <= k < |cols| && cols[k].1 == key && Present(row, cols[k].0)
    ensures forall key :: key in o ==> o[key].Str?
  {
    if |cols| == 0 then map[]
    else
      var rest := Gather(row, cols[1..], py);
      var (col, key) := cols[0];
      if Present(row, col) then rest[key := Str(Text.Strip(py.str(row[col])))] else rest
  }

  const SOCIAL_LINKS: seq<(string, string)> :=
    [("twitter", "twitter"), ("github", "github"), ("linkedin", "linkedin"), ("discord", "discord")]

  const PRICING_TIERS: seq<(string, string)> :=
    [("pricing_free", "free"), ("pricing_starter", "starter"), ("pricing_pro", "pro"), ("pricing_enterprise", "enterprise")]

  /** `d if d else None` for a gathered object. */
  function ObjOrNone(o: map<string, JsVal>): (v: JsVal)
    ensures v.Null? <==> |o| == 0
  {
    if |o| == 0 then Null else Obj(o)
  }

  /** The rating as stored: a number in [0, 5] or `None`. */
  function RatingValue(c: Cell, py: Py): (v: JsVal)
    ensures v.Null? || (v.Num? && 0.0 <= v.x <= 5.0)
  {
    match RatingOf(c, py)
    case None => Null
    case Some(x) => Num(x)
  }

  /** The row's name: `str(row.get("name", row.get("title", ""))).strip()`. */
  function RowName(row: Row, py: Py): string {
    Field(row, ["name", "title"], "", py)
  }

  /** The description, which also supplies the default short description. */
  function RowDescription(row: Row, py: Py): string {
    Field(row, ["description", "desc"], "", py)
  }

  /** The cell `use_cases`, parsed only when it is truthy. */
  function RowUseCases(row: Row, py: Py): (v: JsVal)
    ensures v.Null? || v.Arr?
  {
    var uc := RowGet(row, ["useCases", "use_cases", "use_case"], PyStr(""));
    if Truthy(uc) then StrArr(ParseList(uc, py)) else Null
  }

  /** The fields a tool record can have; `KeyName` is how each is spelled in the output. */
  datatype Key =
    | Name | Slug | Description | ShortDescription | Category | Pricing | WebsiteUrl
    | LogoUrl | Badge | Developer | DocumentationUrl | Rating | Features | Tags
    | UseCases | SocialLinks | PricingDetails | LaunchDate | LastUpdated | Id

  function KeyName(k: Key): string {
    match k
    case Name => "name"
    case Slug => "slug"
    case Description => "description"
    case ShortDescription => "shortDescription"
    case Category => "category"
    case Pricing => "pricing"
    case WebsiteUrl => "websiteUrl"
    case LogoUrl => "logoUrl"
    case Badge => "badge"
    case Developer => "developer"
    case DocumentationUrl => "documentationUrl"
    case Rating => "rating"
    case Features => "features"
    case Tags => "tags"
    case UseCases => "useCases"
    case SocialLinks => "socialLinks"
    case PricingDetails => "pricingDetails"
    case LaunchDate => "launchDate"
    case LastUpdated => "lastUpdated"
    case Id => "id"
  }

  /** A tool as the script builds it: its fields and their values. */
  type Tool = map<Key, JsVal>

  /**
   * The value the mapping gives field `k` before the cleanup, `None` as
   * `Null`; `today` is `datetime.now()` formatted as `%Y-%m-%d`.
   */
  function Value(row: Row, py: Py, today: string, rule: PricingRule, k: Key): JsVal {
    match k
    case Name => Str(RowName(row, py))
    case Slug => Str(Slugify(RowGet(row, ["slug"], PyStr(RowName(row, py))), py))
    case Description => Str(RowDescription(row, py))
    case ShortDescription =>
      Str(Field(row, ["shortDescription", "short_desc"], Take(RowDescription(row, py), 100), py))
    case Category => Str(Field(row, ["category", "categories"], "Other", py))
    case Pricing => Str(PriceLabel(rule, RowGet(row, ["pricing", "price"], PyStr("")), py))
    case WebsiteUrl => Str(Field(row, ["websiteUrl", "url", "website"], "", py))
    case LogoUrl => OrNone(Field(row, ["logoUrl", "logo"], "", py))
    case Badge => OrNone(Field(row, ["badge"], "", py))
    case Developer => OrNone(Field(row, ["developer", "author"], "", py))
    case DocumentationUrl => OrNone(Field(row, ["documentationUrl", "docs"], "", py))
    case Rating => RatingValue(RowGet(row, ["rating", "score"], NA), py)
    case Features => StrArr(ParseList(RowGet(row, ["features", "feature"], PyStr("")), py))
    case Tags => StrArr(ParseList(RowGet(row, ["tags", "tag"], PyStr("")), py))
    case UseCases => RowUseCases(row, py)
    case SocialLinks => ObjOrNone(Gather(row, SOCIAL_LINKS, py))
    case PricingDetails => ObjOrNone(Gather(row, PRICING_TIERS, py))
    case LaunchDate => OrNone(Field(row, ["launchDate", "launch_date"], "", py))
    case LastUpdated => Str(today)
    case Id => Null
  }

  /** A value the cleanup drops: `None` or the empty string. */
  predicate Dropped(v: JsVal) {
    v.Null? || v == Str("")
  }

  /**
   * The record of a named row: every field the mapping sets, less those the
   * cleanup `{k: v for k, v in tool.items() if v is not None and v != ""}` drops.
   */
  function Record(row: Row, py: Py, today: string, rule: PricingRule): (r: Tool)
    ensures forall k :: k in r <==> k != Id && !Dropped(Value(row, py, today, rule, k))
    ensures forall k :: k in r ==> r[k] == Value(row, py, today, rule, k)
  {
    map k: Key | k != Id && !Dropped(Value(row, py, today, rule, k)) :: Value(row, py, today, rule, k)
  }

  /** What `Record` says about one field. */
  lemma RecordAt(row: Row, py: Py, today: string, rule: PricingRule, k: Key)
    ensures var r := Record(row, py, today, rule);
      && (k in r <==> k != Id && !Dropped(Value(row, py, today, rule, k)))
      && (k in r ==> r[k] == Value(row, py, today, rule, k))
  {
  }

  /** One iteration of `map_kaggle_to_schema`: `None` for a row it skips. */
  function MapRecord(row: Row, py: Py, today: string, rule: PricingRule): (r: Option<Tool>)
    ensures r.None? <==> RowName(row, py) == ""
    ensures r.Some? ==> r.value == Record(row, py, today, rule)
  {
    if RowName(row, py) == "" then None else Some(Record(row, py, today, rule))
  }

  /** A record holds its row's non-empty, stripped name, and neither an `id` nor a `None` or empty string. */
  lemma RecordBasics(row: Row, py: Py, today: string, rule: PricingRule)
    requires RowName(row, py) != ""
    ensures var r := Record(row, py, today, rule);
      && Name in r && r[Name] == Str(RowName(row, py)) && Text.NoEdgeSpace(RowName(row, py), Text.IsPySpace)
      && Id !in r
      && (forall k :: k in r ==> !Dropped(r[k]))
  {
  }

  /** A record's slug, when it has one, is a non-empty well-formed slug of the `slug` cell or the name. */
  lemma RecordSlug(row: Row, py: Py, today: string, rule: PricingRule)
    ensures var r := Record(row, py, today, rule);
      var slug := Slugify(RowGet(row, ["slug"], PyStr(RowName(row, py))), py);
      && (Slug in r <==> slug != "")
      && (Slug in r ==> r[Slug] == Str(slug) && IsSlug(slug))
  {
    RecordAt(row, py, today, rule, Slug);
  }

  /** The rating is kept only as a number in [0, 5]. */
  lemma RecordRating(row: Row, py: Py, today: string, rule: PricingRule)
    ensures var r := Record(row, py, today, rule);
      && (Rating in r <==> RatingOf(RowGet(row, ["rating", "score"], NA), py).Some?)
      && (Rating in r ==> r[Rating].Num? && 0.0 <= r[Rating].x <= 5.0)
  {
    RecordAt(row, py, today, rule, Rating);
  }

  /** Features and tags are always present, as the parsed lists, even when empty. */
  lemma RecordLists(row: Row, py: Py, today: string, rule: PricingRule)
    ensures var r := Record(row, py, today, rule);
      && Features in r && r[Features] == StrArr(ParseList(RowGet(row, ["features", "feature"], PyStr("")), py))
      && Tags in r && r[Tags] == StrArr(ParseList(RowGet(row, ["tags", "tag"], PyStr("")), py))
  {
    RecordAt(row, py, today, rule, Features);
    RecordAt(row, py, today, rule, Tags);
  }

  /** The pricing label, when kept, is the run's `parse_pricing` of the cell; `lastUpdated` is the day of the run. */
  lemma RecordPricingAndDate(row: Row, py: Py, today: string, rule: PricingRule)
    ensures var r := Record(row, py, today, rule);
      && (Pricing in r ==> r[Pricing] == Str(PriceLabel(rule, RowGet(row, ["pricing", "price"], PyStr("")), py)))
      && (today != "" <==> LastUpdated in r)
      && (today != "" ==> r[LastUpdated] == Str(today))
  {
    RecordAt(row, py, today, rule, Pricing);
    RecordAt(row, py, today, rule, LastUpdated);
  }

  /**
   * As written, the script never records the label `Freemium`; corrected, a
   * record is labelled `Freemium` exactly when its pricing cell holds `freemium`.
   */
  lemma RecordFreemium(row: Row, py: Py, today: string)
    ensures var r := Record(row, py, today, AsWritten);
      Pricing in r ==> r[Pricing] != Str("Freemium")
    ensures var r := Record(row, py, today, Corrected);
      var cell := RowGet(row, ["pricing", "price"], PyStr(""));
      Pricing in r ==> (r[Pricing] == Str("Freemium") <==> !Blank(cell) && Text.Includes(Text.Lower(py.str(cell)), "freemium"))
  {
    RecordPricingAndDate(row, py, today, AsWritten);
    RecordPricingAndDate(row, py, today, Corrected);
  }

  /** The row `{"name": "A", "pricing": "Freemium"}`: the script records `Free`, the corrected mapping `Freemium`. */
  lemma FreemiumRowExample(py: Py, today: string)
    requires Lawful(py)
    ensures var row := map["name" := PyStr("A"), "pricing" := PyStr("Freemium")];
      && Record(row, py, today, AsWritten)[Pricing] == Str("Free")
      && Record(row, py, today, Corrected)[Pricing] == Str("Freemium")
  {
    var row := map["name" := PyStr("A"), "pricing" := PyStr("Freemium")];
    var keys := ["pricing", "price"];
    assert keys[0] in row;
    assert RowGet(row, keys, PyStr("")) == PyStr("Freemium");
    PricingFindingExample(py);
    RecordAt(row, py, today, AsWritten, Pricing);
    RecordAt(row, py, today, Corrected, Pricing);
  }

  /** Without a `slug` column, the slug is the slug of the name. */
  lemma SlugFromName(row: Row, py: Py)
    requires Lawful(py) && "slug" !in row && RowName(row, py) != ""
    ensures Slugify(RowGet(row, ["slug"], PyStr(RowName(row, py))), py) == SlugifyText(RowName(row, py))
  {
  }

  /** Without a short-description column, the short description is the description cut at 100 characters. */
  lemma ShortDescriptionDefault(row: Row, py: Py, today: string, rule: PricingRule)
    requires Lawful(py) && "shortDescription" !in row && "short_desc" !in row
    ensures var r := Record(row, py, today, rule);
      var cut := Text.Strip(Take(RowDescription(row, py), 100));
      && (ShortDescription in r <==> cut != "")
      && (ShortDescription in r ==> r[ShortDescription] == Str(cut))
  {
    var d := Take(RowDescription(row, py), 100);
    FieldDefault(row, ["shortDescription", "short_desc"], d, py);
    RecordStr(row, py, today, rule, ShortDescription, Text.Strip(d));
  }

  /** A text field is kept exactly when its text is not empty. */
  lemma RecordStr(row: Row, py: Py, today: string, rule: PricingRule, k: Key, s: string)
    requires k != Id && Value(row, py, today, rule, k) == Str(s)
    ensures var r := Record(row, py, today, rule);
      && (k in r <==> s != "")
      && (k in r ==> r[k] == Str(s))
  {
    RecordAt(row, py, today, rule, k);
  }

  /** A field none of whose columns the table has is its stripped default. */
  lemma FieldDefault(row: Row, keys: seq<string>, d: string, py: Py)
    requires Lawful(py) && forall k :: 0 <= k < |keys| ==> keys[k] !in row
    ensures Field(row, keys, d, py) == Text.Strip(d)
  {
    assert RowGet(row, keys, PyStr(d)) == PyStr(d);
    assert py.str(PyStr(d)) == d;
  }

  /** `map_kaggle_to_schema`: the records of the named rows, in table order. */
  method MapKaggleToSchema(rows: seq<Row>, py: Py, today: string, rule: PricingRule) returns (tools: seq<Tool>)
    ensures |tools| <= |rows|
    ensures tools == Seqs.Map(Seqs.Filter(rows, (row: Row) => RowName(row, py) != ""), (row: Row) => Record(row, py, today, rule))
  {
    var named := (row: Row) => RowName(row, py) != "";
    var record := (row: Row) => Record(row, py, today, rule);
    tools := [];
    for i := 0 to |rows|
      invariant tools == Seqs.Map(Seqs.Filter(rows[..i], named), record)
    {
      FilterMapStep(rows, i, named, record);
      var r := MapRecord(rows[i], py, today, rule);
      if r.Some? {
        tools := tools + [r.value];
      }
    }
    assert rows[..|rows|] == rows;
  }

  /** One more element extends a filtered and mapped prefix by its image, when it is kept. */
  lemma FilterMapStep<T(!new), U>(s: seq<T>, i: nat, p: T -> bool, f: T -> U)
    requires i < |s|
    ensures Seqs.Map(Seqs.Filter(s[..i + 1], p), f) ==
      Seqs.Map(Seqs.Filter(s[..i], p), f) + (if p(s[i]) then [f(s[i])] else [])
  {
    assert s[..i + 1] == s[..i] + [s[i]];
    Seqs.FilterConcat(s[..i], [s[i]], p);
    assert Seqs.Filter([s[i]], p) == if p(s[i]) then [s[i]] else [];
    var a := Seqs.Filter(s[..i], p);
    var b := Seqs.Filter([s[i]], p);
    assert Seqs.Map(a + b, f) == Seqs.Map(a, f) + Seqs.Map(b, f);
  }

  // ---------------------------------------------------------------- export

  /** The columns of the CSV file, in order: those the CSV import endpoint reads. */
  const CSV_COLUMNS: seq<Key> :=
    [Slug, Name, Description, ShortDescription, Category, Pricing, WebsiteUrl,
     LogoUrl, Features, Tags, Badge, Rating, Developer, DocumentationUrl]

  /** The header line's cells. */
  function CsvHeader(): (h: seq<string>)
    ensures |h| == |CSV_COLUMNS| && forall k :: 0 <= k < |h| ==> h[k] == KeyName(CSV_COLUMNS[k])
  {
    Seqs.Map(CSV_COLUMNS, KeyName)
  }

  /** The header of the CSV export, spelled out. */
  const HEADER_NAMES: seq<string> :=
    ["slug", "name", "description", "shortDescription", "category", "pricing", "websiteUrl",
     "logoUrl", "features", "tags", "badge", "rating", "developer", "documentationUrl"]

  lemma HeaderNames()
    ensures CsvHeader() == HEADER_NAMES
  {
  }

  /** No header name holds a comma or starts or ends with white space, so the import's split-and-trim keeps it whole. */
  lemma HeaderNamesClean()
    ensures forall k :: 0 <= k < |HEADER_NAMES| ==> ',' !in HEADER_NAMES[k] && Text.NoEdgeSpace(HEADER_NAMES[k], Text.IsJsSpace)
  {
  }

  /** Every header name is a field the insert schema keeps. */
  lemma HeaderNamesKeys()
    ensures forall k :: 0 <= k < |HEADER_NAMES| ==> HEADER_NAMES[k] in Schema.INSERT_KEYS
  {
  }

  /** The CSV import reads the exported header line back as the export's field names, each a key of the insert schema. */
  lemma HeaderReadsBack()
    ensures CsvImport.Cells(Text.Join(CsvHeader(), ",")) == CsvHeader()
    ensures forall k :: 0 <= k < |CsvHeader()| ==> CsvHeader()[k] in Schema.INSERT_KEYS
  {
    HeaderNames();
    HeaderNamesClean();
    HeaderNamesKeys();
    CsvImport.JoinedCells(HEADER_NAMES);
  }

  /** Python truthiness of an output value; `Undefined` is the `""` that `tool.get(col, "")` supplies. */
  predicate PyTruthy(v: JsVal) {
    match v
    case Undefined => false
    case Null => false
    case NaN => true
    case Num(x) => x != 0.0
    case Str(s) => s != ""
    case Arr(items) => |items| > 0
    case Obj(fields) => |fields| > 0
  }

  /**
   * One CSV cell: a list column is its items joined with `|` (any other
   * value printed), every other column the printed value when it is truthy
   * and empty otherwise.
   */
  function ExportCell(tool: Tool, col: Key, py: Py): string {
    var value := if col in tool then tool[col] else Undefined;
    if col == Features || col == Tags then
      if value.Arr? then Text.Join(Seqs.Map(value.items, py.show), "|")
      else if value.Undefined? then "" else py.show(value)
    else if PyTruthy(value) then py.show(value) else ""
  }

  /** One data row of `export_to_csv`, a cell per column. */
  function ExportRow(tool: Tool, py: Py): (row: seq<string>)
    ensures |row| == |CSV_COLUMNS|
    ensures forall k :: 0 <= k < |row| ==> row[k] == ExportCell(tool, CSV_COLUMNS[k], py)
  {
    Seqs.Map(CSV_COLUMNS, (col: Key) => ExportCell(tool, col, py))
  }

  /** `export_to_csv` as a table: the header, then one row per tool. */
  function ExportCsv(tools: seq<Tool>, py: Py): (table: seq<seq<string>>)
    ensures |table| == |tools| + 1 && table[0] == CsvHeader()
    ensures forall k :: 0 <= k < |tools| ==> table[k + 1] == ExportRow(tools[k], py)
  {
    [CsvHeader()] + Seqs.Map(tools, (t: Tool) => ExportRow(t, py))
  }

  /** A list item the `|`-joined cell carries unchanged. */
  predicate PipeItem(x: string) {
    x != "" && '|' !in x && Text.NoEdgeSpace(x, Text.IsPySpace)
  }

  /** Python's whitespace includes JavaScript's, so a stripped item is also trimmed. */
  lemma StrippedIsTrimmed(x: string)
    requires Text.NoEdgeSpace(x, Text.IsPySpace)
    ensures Text.Trim(x) == x
  {
    Text.TrimOfTrimmed(x, Text.IsJsSpace);
  }

  /** `str` of each string item is the item. */
  lemma ShowItems(items: seq<string>, py: Py)
    requires Lawful(py)
    ensures Seqs.Map(StrArr(items).items, py.show) == items
  {
  }

  /**
   * A list field exported as a `|`-joined cell is read back by the CSV
   * import's `split("|").map(trim)` as the same list.
   */
  lemma ExportedListReadsBack(tool: Tool, col: Key, items: seq<string>, py: Py)
    requires Lawful(py)
    requires col == Features || col == Tags
    requires col in tool && tool[col] == StrArr(items)
    requires forall k :: 0 <= k < |items| ==> PipeItem(items[k])
    ensures CsvImport.Pipes(Str(ExportCell(tool, col, py))) == StrArr(items)
  {
    ShowItems(items, py);
    assert ExportCell(tool, col, py) == Text.Join(items, "|");
    PipeJoinReadsBack(items);
  }

  /** Items joined with `|` are split and trimmed back into themselves. */
  lemma PipeJoinReadsBack(items: seq<string>)
    requires forall k :: 0 <= k < |items| ==> PipeItem(items[k])
    ensures CsvImport.Pipes(Str(Text.Join(items, "|"))) == StrArr(items)
  {
    if |items| > 0 {
      var cell := Text.Join(items, "|");
      assert Text.Split(cell, '|') == items by {
        assert "|" == ['|'];
        Text.SplitJoin(items, '|');
      }
      assert Json.Truthy(Str(cell)) by {
        assert PipeItem(items[0]);
        JoinStartsWithFirst(items, "|");
      }
      assert CsvImport.Pipes(Str(cell)) == StrArr(Seqs.Map(items, Text.Trim));
      TrimAllPiped(items);
    }
  }

  /** Trimming leaves pipe items alone. */
  lemma TrimAllPiped(items: seq<string>)
    requires forall k :: 0 <= k < |items| ==> PipeItem(items[k])
    ensures Seqs.Map(items, Text.Trim) == items
  {
    forall k | 0 <= k < |items|
      ensures Text.Trim(items[k]) == items[k]
    {
      StrippedIsTrimmed(items[k]);
    }
  }

  /** Cells that hold no comma and no edge blanks: pandas writes them unquoted and the import trims nothing off them. */
  predicate CommaFreeCells(cells: seq<string>) {
    forall k :: 0 <= k < |cells| ==> ',' !in cells[k] && Text.NoEdgeSpace(cells[k], Text.IsJsSpace)
  }

  /** A CSV line of comma-free cells is split by the import back into those cells. */
  lemma ExportedLineSplits(cells: seq<string>)
    requires |cells| > 0 && CommaFreeCells(cells)
    ensures CsvImport.Cells(Text.Join(cells, ",")) == cells
  {
    CsvImport.JoinedCells(cells);
  }

  /**
   * The export and the import agree on a record's features: the exported
   * row, written as one comma-separated line and read back by the CSV
   * import, yields the features cell, which its `|` split turns into the
   * same list. pandas quoting is not modelled, so no cell may hold a comma.
   */
  lemma ExportedFeaturesImport(tool: Tool, items: seq<string>, py: Py)
    requires Lawful(py)
    requires Features in tool && tool[Features] == StrArr(items)
    requires forall k :: 0 <= k < |items| ==> PipeItem(items[k])
    requires CommaFreeCells(ExportRow(tool, py))
    ensures var cells := CsvImport.Cells(Text.Join(ExportRow(tool, py), ","));
      |cells| == |CSV_COLUMNS| && CSV_COLUMNS[8] == Features && CsvImport.Pipes(Str(cells[8])) == StrArr(items)
  {
    var row := ExportRow(tool, py);
    ExportedLineSplits(row);
    FeaturesColumn();
    ExportedListReadsBack(tool, Features, items, py);
  }

  /** `features` is the ninth column. */
  lemma FeaturesColumn()
    ensures |CSV_COLUMNS| == 14 && CSV_COLUMNS[8] == Features
  {
  }

  /** A rating of 0 is falsy and exports as an empty cell, which the CSV import reads as a missing rating. */
  lemma ZeroRatingExportsBlank(tool: Tool, py: Py, parseFloat: string -> JsVal, blank: JsVal)
    requires Rating in tool && tool[Rating] == Num(0.0)
    ensures ExportCell(tool, Rating, py) == ""
    ensures CsvImport.Rating(Str(ExportCell(tool, Rating, py)), parseFloat, blank) == blank
  {
  }

  /** The name `export_to_json` slugifies: `tool.get('name', '')`. */
  function NameCell(tool: Tool): Cell {
    if Name in tool && tool[Name].Str? then PyStr(tool[Name].s) else PyStr("")
  }

  /** `export_to_json`'s id step: a tool without an `id` gets `kaggle-` and the slug of its name. */
  function WithId(tool: Tool, py: Py): (r: Tool)
    ensures Id in r && r.Keys == tool.Keys + {Id}
    ensures forall k :: k in tool && k != Id ==> r[k] == tool[k]
    ensures Id in tool ==> r == tool
    ensures Id !in tool ==> exists slug :: IsSlug(slug) && r[Id] == Str("kaggle-" + slug)
  {
    if Id in tool then tool
    else
      var slug := Slugify(NameCell(tool), py);
      tool[Id := Str("kaggle-" + slug)]
  }

  /** `export_to_json` before printing: every tool with an id. */
  function ExportJson(tools: seq<Tool>, py: Py): (r: seq<Tool>)
    ensures |r| == |tools|
    ensures forall k :: 0 <= k < |r| ==> Id in r[k] && r[k] == WithId(tools[k], py)
  {
    Seqs.Map(tools, (t: Tool) => WithId(t, py))
  }

  /** Exporting to JSON twice changes nothing the first time did not. */
  lemma ExportJsonIdempotent(tools: seq<Tool>, py: Py)
    ensures ExportJson(ExportJson(tools, py), py) == ExportJson(tools, py)
  {
  }

  /** Without a `slug` column the slug cell defaults to the name. */
  lemma SlugOfName(row: Row, py: Py)
    requires "slug" !in row
    ensures RowGet(row, ["slug"], PyStr(RowName(row, py))) == PyStr(RowName(row, py))
  {
    var keys := ["slug"];
    assert keys[0] !in row;
  }

  /** The name `export_to_json` reads from a record is the row's name. */
  lemma RecordNameCell(row: Row, py: Py, today: string, rule: PricingRule)
    requires RowName(row, py) != ""
    ensures NameCell(Record(row, py, today, rule)) == PyStr(RowName(row, py))
  {
  }

  lemma NewId(r: Tool, py: Py)
    requires Id !in r
    ensures WithId(r, py)[Id] == Str("kaggle-" + Slugify(NameCell(r), py))
  {
  }

  /**
   * For a table without a `slug` column, a record's JSON id is `kaggle-`
   * followed by the record's own slug (absent exactly when it would be empty).
   */
  lemma IdMatchesSlug(row: Row, py: Py, today: string, rule: PricingRule)
    requires "slug" !in row && RowName(row, py) != ""
    ensures var r := Record(row, py, today, rule);
      var slug := Slugify(PyStr(RowName(row, py)), py);
      && WithId(r, py)[Id] == Str("kaggle-" + slug)
      && (Slug in r <==> slug != "")
      && (Slug in r ==> r[Slug] == Str(slug))
  {
    IdOfName(row, py, today, rule);
    RecordSlugOfName(row, py, today, rule);
  }

  lemma IdOfName(row: Row, py: Py, today: string, rule: PricingRule)
    requires RowName(row, py) != ""
    ensures WithId(Record(row, py, today, rule), py)[Id] == Str("kaggle-" + Slugify(PyStr(RowName(row, py)), py))
  {
    RecordNameCell(row, py, today, rule);
    NewId(Record(row, py, today, rule), py);
  }

  lemma RecordSlugOfName(row: Row, py: Py, today: string, rule: PricingRule)
    requires "slug" !in row
    ensures var r := Record(row, py, today, rule);
      var slug := Slugify(PyStr(RowName(row, py)), py);
      && (Slug in r <==> slug != "")
      && (Slug in r ==> r[Slug] == Str(slug))
  {
    SlugOfName(row, py);
    RecordSlug(row, py, today, rule);
  }
}
