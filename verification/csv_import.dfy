/**
 * `POST /tools/import-csv`: a naive comma/newline splitter that zips each
 * data line with the header line, validates the row with `insertToolSchema`
 * and inserts it, collecting one error per failed line.
 */
module CsvImport {
  import opened Wrappers
  import opened Json
  import opened Schema
  import Text
  import Seqs
  import Routes

  const NO_CSV := "No CSV data provided"

  /** The payload split into lines: `csvData.trim().split("\n")`. */
  function Lines(csv: string): (lines: seq<string>)
    ensures |lines| >= 1
  {
    Text.Split(Text.Trim(csv), '\n')
  }

  /** The trimmed comma-separated cells of one line. */
  function Cells(line: string): (cells: seq<string>)
    ensures |cells| >= 1
    ensures forall k :: 0 <= k < |cells| ==> ',' !in cells[k] && Text.NoEdgeSpace(cells[k], Text.IsJsSpace)
  {
    var parts := Text.Split(line, ',');
    var cells := Seqs.Map(parts, Text.Trim);
    assert forall k :: 0 <= k < |cells| ==> cells[k] == Text.Trim(parts[k]);
    forall k | 0 <= k < |cells|
      ensures ',' !in cells[k]
    {
      Text.TrimKeeps(parts[k], ',');
    }
    cells
  }

  /** `values[idx]`: the cell at a header's position, `undefined` past the end of the line. */
  function Cell(cells: seq<string>, k: nat): JsVal {
    if k < |cells| then Str(cells[k]) else Undefined
  }

  /** `headers.forEach((h, idx) => obj[h] = values[idx])`: a later equal header overwrites. */
  function Zip(headers: seq<string>, cells: seq<string>): (o: JsObject) {
    ZipPrefix(headers, cells, |headers|)
  }

  /** The object after the first `n` headers have been assigned. */
  function ZipPrefix(headers: seq<string>, cells: seq<string>, n: nat): (o: JsObject)
    requires n <= |headers|
  {
    if n == 0 then map[]
    else ZipPrefix(headers, cells, n - 1)[headers[n - 1] := Cell(cells, n - 1)]
  }

  /** The object's keys are exactly the first `n` headers. */
  lemma {:induction false} ZipKeys(headers: seq<string>, cells: seq<string>, n: nat)
    requires n <= |headers|
    ensures forall h :: h in ZipPrefix(headers, cells, n) <==> exists k :: 0 <= k < n && headers[k] == h
  {
    if n > 0 {
      ZipKeys(headers, cells, n - 1);
    }
  }

  /** Each header holds the cell at the position of its last occurrence. */
  lemma {:induction false} ZipLastWins(headers: seq<string>, cells: seq<string>, n: nat, k: nat)
    requires k < n <= |headers|
    requires forall j :: k < j < n ==> headers[j] != headers[k]
    ensures headers[k] in ZipPrefix(headers, cells, n)
    ensures ZipPrefix(headers, cells, n)[headers[k]] == Cell(cells, k)
  {
    if k < n - 1 {
      ZipLastWins(headers, cells, n - 1, k);
    }
  }

  /** `v ? v.split("|").map(s => s.trim()) : []`. */
  function Pipes(v: JsVal): (r: JsVal)
    ensures StringArrayField(r)
  {
    if Truthy(v) && v.Str? then StrArr(Seqs.Map(Text.Split(v.s, '|'), Text.Trim)) else StrArr([])
  }

  /** `v ? parseFloat(v) : blank`. */
  function Rating(v: JsVal, parseFloat: string -> JsVal, blank: JsVal): JsVal {
    if Truthy(v) && v.Str? then parseFloat(v.s) else blank
  }

  /**
   * The object handed to `insertToolSchema.parse` for one data line; `blank`
   * is what a blank or missing rating cell becomes.
   */
  function RowObject(headers: seq<string>, cells: seq<string>, today: string,
                     parseFloat: string -> JsVal, blank: JsVal): JsObject
  {
    var o := Zip(headers, cells);
    o["features" := Pipes(Get(o, "features"))]["tags" := Pipes(Get(o, "tags"))]
     ["rating" := Rating(Get(o, "rating"), parseFloat, blank)]["lastUpdated" := Str(today)]
  }

  /** As written: a blank rating becomes `null`. */
  const AS_WRITTEN_BLANK: JsVal := Null
  /** As intended: a blank rating is left out, which the optional rating accepts. */
  const CORRECTED_BLANK: JsVal := Undefined

  /**
   * As written, a line without a rating (no `rating` column, or an empty cell)
   * is always rejected, and `rating` is among the reported fields.
   */
  lemma AsWrittenRejectsBlankRating(headers: seq<string>, cells: seq<string>, today: string,
                                    parseFloat: string -> JsVal, isUrl: string -> bool)
    requires !Truthy(Get(Zip(headers, cells), "rating"))
    ensures ParseInsertTool(RowObject(headers, cells, today, parseFloat, AS_WRITTEN_BLANK), isUrl).Failure?
  {
    var o := RowObject(headers, cells, today, parseFloat, AS_WRITTEN_BLANK);
    assert Get(Known(o), "rating") == Null;
  }

  /** With the correction, a line without a rating passes the rating check. */
  lemma CorrectedAcceptsBlankRating(headers: seq<string>, cells: seq<string>, today: string,
                                    parseFloat: string -> JsVal)
    requires !Truthy(Get(Zip(headers, cells), "rating"))
    ensures RatingField(Get(Known(RowObject(headers, cells, today, parseFloat, CORRECTED_BLANK)), "rating"))
  {
  }

  const EXAMPLE_HEADERS: seq<string> := ["slug", "name", "description", "shortDescription", "category", "pricing", "websiteUrl"]
  const EXAMPLE_CELLS: seq<string> := ["a", "A", "d", "s", "c", "Free", "u"]

  /** The record the example line is meant to import. */
  function ExampleData(today: string): ToolData {
    ToolData("a", "A", "d", "s", "c", "Free", "u", None, [], [], None, None, None, None, None,
             None, None, None, None, None, today)
  }

  /** The object the corrected handler builds for the example line. */
  function ExampleObject(today: string): JsObject {
    map["slug" := Str("a"), "name" := Str("A"), "description" := Str("d"),
        "shortDescription" := Str("s"), "category" := Str("c"), "pricing" := Str("Free"),
        "websiteUrl" := Str("u"), "features" := StrArr([]), "tags" := StrArr([]),
        "rating" := Undefined, "lastUpdated" := Str(today)]
  }

  lemma ExampleZip()
    ensures Zip(EXAMPLE_HEADERS, EXAMPLE_CELLS)
      == map["slug" := Str("a"), "name" := Str("A"), "description" := Str("d"),
             "shortDescription" := Str("s"), "category" := Str("c"), "pricing" := Str("Free"),
             "websiteUrl" := Str("u")]
  {
    var h, c := EXAMPLE_HEADERS, EXAMPLE_CELLS;
    assert ZipPrefix(h, c, 1) == map["slug" := Str("a")];
    assert ZipPrefix(h, c, 2) == map["slug" := Str("a"), "name" := Str("A")];
    assert ZipPrefix(h, c, 3) == map["slug" := Str("a"), "name" := Str("A"), "description" := Str("d")];
    assert ZipPrefix(h, c, 4) == map["slug" := Str("a"), "name" := Str("A"), "description" := Str("d"),
                                     "shortDescription" := Str("s")];
    assert ZipPrefix(h, c, 5) == map["slug" := Str("a"), "name" := Str("A"), "description" := Str("d"),
                                     "shortDescription" := Str("s"), "category" := Str("c")];
    assert ZipPrefix(h, c, 6) == map["slug" := Str("a"), "name" := Str("A"), "description" := Str("d"),
                                     "shortDescription" := Str("s"), "category" := Str("c"),
                                     "pricing" := Str("Free")];
  }

  lemma ExampleRow(today: string, parseFloat: string -> JsVal)
    ensures RowObject(EXAMPLE_HEADERS, EXAMPLE_CELLS, today, parseFloat, CORRECTED_BLANK) == ExampleObject(today)
  {
    ExampleZip();
  }

  lemma ExampleEncodesText(today: string)
    ensures EncodesText(ExampleObject(today), ExampleData(today))
  {
  }

  lemma ExampleEncodesLists(today: string)
    ensures EncodesLists(ExampleObject(today), ExampleData(today))
  {
  }

  lemma ExampleEncodesOptional(today: string)
    ensures EncodesOptional(ExampleObject(today), ExampleData(today))
  {
  }

  lemma ExampleEncodesNested(today: string)
    ensures EncodesNested(ExampleObject(today), ExampleData(today))
  {
  }

  lemma ExampleKnown(today: string)
    ensures Known(ExampleObject(today)) == ExampleObject(today)
  {
  }

  /**
   * A complete line with no rating column: rejected as written, imported as
   * the expected record with the correction.
   */
  lemma RatingFindingExample(today: string, parseFloat: string -> JsVal)
    ensures ParseInsertTool(RowObject(EXAMPLE_HEADERS, EXAMPLE_CELLS, today, parseFloat, AS_WRITTEN_BLANK), _ => true).Failure?
    ensures ParseInsertTool(RowObject(EXAMPLE_HEADERS, EXAMPLE_CELLS, today, parseFloat, CORRECTED_BLANK), _ => true)
      == Success(ExampleData(today))
  {
    ExampleZip();
    AsWrittenRejectsBlankRating(EXAMPLE_HEADERS, EXAMPLE_CELLS, today, parseFloat, _ => true);
    ExampleRow(today, parseFloat);
    ExampleKnown(today);
    ExampleEncodesText(today);
    ExampleEncodesLists(today);
    ExampleEncodesOptional(today);
    ExampleEncodesNested(today);
    ParseEncoded(ExampleObject(today), ExampleData(today), _ => true);
  }

  /** Why one line failed: the schema's offending fields, or the database's message. */
  datatype LineFailure = Invalid(fields: seq<string>) | Rejected(message: string)

  /** `{line: i + 1, error}`. */
  datatype LineError = LineError(line: nat, error: LineFailure)

  /** The response body: the number of inserted lines and the collected errors. */
  datatype Summary = Summary(imported: nat, errors: seq<LineError>)

  /**
   * What the handler depends on but does not compute: today's date,
   * zod's URL check, `parseFloat`, what a blank rating cell becomes
   * (`AS_WRITTEN_BLANK` in the handler as written, `CORRECTED_BLANK` once
   * fixed), `insertToolSchema.parse` as a function value, and the outcome
   * of the INSERT for data line `i` (`None` on success, the error message
   * otherwise).
   */
  datatype Deps = Deps(
    today: string,
    isUrl: string -> bool,
    parseFloat: string -> JsVal,
    blank: JsVal,
    validate: JsObject -> Result<ToolData, seq<string>>,
    insert: (nat, ToolData) -> Option<string>)

  /** `validate` is the insert schema under `isUrl`. */
  ghost predicate Faithful(deps: Deps) {
    forall o {:trigger ParseInsertTool(o, deps.isUrl)} :: deps.validate(o) == ParseInsertTool(o, deps.isUrl)
  }

  /** The outcome of data line `i`: the inserted slug, or why it failed. */
  function LineOutcome(deps: Deps, headers: seq<string>, line: string, i: nat): Result<string, LineFailure> {
    var o := RowObject(headers, Cells(line), deps.today, deps.parseFloat, deps.blank);
    match deps.validate(o)
    case Failure(fields) => Failure(Invalid(fields))
    case Success(d) =>
      match deps.insert(i, d)
      case Some(msg) => Failure(Rejected(msg))
      case None => Success(d.slug)
  }

  /**
   * A data line fails validation exactly when its row object breaks the
   * insert schema, and is inserted exactly when it conforms and the
   * database accepts it.
   */
  lemma LineOutcomeBySchema(deps: Deps, headers: seq<string>, line: string, i: nat)
    requires Faithful(deps)
    ensures LineOutcome(deps, headers, line, i).Failure? && LineOutcome(deps, headers, line, i).error.Invalid?
      <==> RowParse(deps, headers, line).Failure?
    ensures LineOutcome(deps, headers, line, i).Success?
      <==> RowParse(deps, headers, line).Success? && deps.insert(i, RowParse(deps, headers, line).value).None?
  {
  }

  /** A table without a `rating` column gives every line a missing rating. */
  lemma NoRatingCell(headers: seq<string>, cells: seq<string>)
    requires "rating" !in headers
    ensures !Truthy(Get(Zip(headers, cells), "rating"))
  {
    ZipKeys(headers, cells, |headers|);
  }

  /** As written, the handler reports every data line without a rating as invalid, whatever the database would do. */
  lemma AsWrittenFailsRatinglessLine(deps: Deps, headers: seq<string>, line: string, i: nat)
    requires Faithful(deps) && deps.blank == AS_WRITTEN_BLANK
    requires !Truthy(Get(Zip(headers, Cells(line)), "rating"))
    ensures LineOutcome(deps, headers, line, i).Failure? && LineOutcome(deps, headers, line, i).error.Invalid?
  {
    AsWrittenRejectsBlankRating(headers, Cells(line), deps.today, deps.parseFloat, deps.isUrl);
    LineOutcomeBySchema(deps, headers, line, i);
  }

  /**
   * As written, a CSV without a `rating` column imports nothing: the tally
   * of its first `n` lines counts no success and one error per data line.
   */
  lemma {:induction false} AsWrittenNoRatingColumn(deps: Deps, headers: seq<string>, lines: seq<string>, n: nat)
    requires Faithful(deps) && deps.blank == AS_WRITTEN_BLANK
    requires "rating" !in headers
    requires 1 <= n <= |lines|
    ensures Successes(LineOutcomes(deps, headers, lines), n) == 0
    ensures |Failures(LineOutcomes(deps, headers, lines), n)| == n - 1
  {
    if n > 1 {
      var outs := LineOutcomes(deps, headers, lines);
      AsWrittenNoRatingColumn(deps, headers, lines, n - 1);
      assert outs[n - 1].Failure? by {
        LineOutcomesAt(deps, headers, lines, n - 1);
        NoRatingCell(headers, Cells(lines[n - 1]));
        AsWrittenFailsRatinglessLine(deps, headers, lines[n - 1], n - 1);
      }
    }
  }

  /** The example data line as the CSV holds it. */
  const EXAMPLE_LINE: string := Text.Join(EXAMPLE_CELLS, ",")

  /** Cells with no comma and no edge blanks, joined by commas, are split by the handler back into themselves. */
  lemma JoinedCells(cells: seq<string>)
    requires |cells| > 0
    requires forall k :: 0 <= k < |cells| ==> ',' !in cells[k] && Text.NoEdgeSpace(cells[k], Text.IsJsSpace)
    ensures Cells(Text.Join(cells, ",")) == cells
  {
    assert "," == [','];
    Text.SplitJoin(cells, ',');
    forall k | 0 <= k < |cells|
      ensures Text.Trim(cells[k]) == cells[k]
    {
      Text.TrimOfTrimmed(cells[k], Text.IsJsSpace);
    }
  }

  lemma ExampleCells()
    ensures Cells(EXAMPLE_LINE) == EXAMPLE_CELLS
  {
    JoinedCells(EXAMPLE_CELLS);
  }

  /** Corrected, the example line parses into the expected record when its website passes the URL check. */
  lemma ExampleRowParse(deps: Deps)
    requires deps.blank == CORRECTED_BLANK && deps.isUrl("u")
    ensures RowParse(deps, EXAMPLE_HEADERS, EXAMPLE_LINE) == Success(ExampleData(deps.today))
  {
    var today := deps.today;
    ExampleCells();
    ExampleRow(today, deps.parseFloat);
    ExampleKnown(today);
    ExampleEncodesText(today);
    ExampleEncodesLists(today);
    ExampleEncodesOptional(today);
    ExampleEncodesNested(today);
    ParseEncoded(ExampleObject(today), ExampleData(today), deps.isUrl);
  }

  /** As written, the example line is reported invalid inside the handler. */
  lemma ExampleLineAsWritten(deps: Deps, i: nat)
    requires Faithful(deps) && deps.blank == AS_WRITTEN_BLANK
    ensures LineOutcome(deps, EXAMPLE_HEADERS, EXAMPLE_LINE, i).Failure?
    ensures LineOutcome(deps, EXAMPLE_HEADERS, EXAMPLE_LINE, i).error.Invalid?
  {
    NoRatingCell(EXAMPLE_HEADERS, Cells(EXAMPLE_LINE));
    AsWrittenFailsRatinglessLine(deps, EXAMPLE_HEADERS, EXAMPLE_LINE, i);
  }

  /** Corrected, the example line's record goes to the database, and the line succeeds exactly when the insert does. */
  lemma ExampleLineCorrected(deps: Deps, i: nat)
    requires Faithful(deps) && deps.blank == CORRECTED_BLANK && deps.isUrl("u")
    ensures LineOutcome(deps, EXAMPLE_HEADERS, EXAMPLE_LINE, i) ==
      match deps.insert(i, ExampleData(deps.today))
      case None => Success("a")
      case Some(msg) => Failure(Rejected(msg))
  {
    ExampleRowParse(deps);
    LineOutcomeBySchema(deps, EXAMPLE_HEADERS, EXAMPLE_LINE, i);
  }

  /** `insertToolSchema.parse` of the row object a data line becomes. */
  function RowParse(deps: Deps, headers: seq<string>, line: string): Result<ToolData, seq<string>> {
    ParseInsertTool(RowObject(headers, Cells(line), deps.today, deps.parseFloat, deps.blank), deps.isUrl)
  }

  /** The outcome of every line, by position (position 0, the header line, is never tried). */
  function LineOutcomes(deps: Deps, headers: seq<string>, lines: seq<string>): (outs: seq<Result<string, LineFailure>>)
    ensures |outs| == |lines|
  {
    OutcomesUpTo(deps, headers, lines, |lines|)
  }

  function OutcomesUpTo(deps: Deps, headers: seq<string>, lines: seq<string>, n: nat): (outs: seq<Result<string, LineFailure>>)
    requires n <= |lines|
    ensures |outs| == n
  {
    if n == 0 then [] else OutcomesUpTo(deps, headers, lines, n - 1) + [LineOutcome(deps, headers, lines[n - 1], n - 1)]
  }

  lemma {:induction false} OutcomesUpToAt(deps: Deps, headers: seq<string>, lines: seq<string>, n: nat, i: nat)
    requires i < n <= |lines|
    ensures OutcomesUpTo(deps, headers, lines, n)[i] == LineOutcome(deps, headers, lines[i], i)
  {
    if i < n - 1 {
      OutcomesUpToAt(deps, headers, lines, n - 1, i);
    }
  }

  lemma LineOutcomesAt(deps: Deps, headers: seq<string>, lines: seq<string>, i: nat)
    requires i < |lines|
    ensures LineOutcomes(deps, headers, lines)[i] == LineOutcome(deps, headers, lines[i], i)
  {
    OutcomesUpToAt(deps, headers, lines, |lines|, i);
  }

  /** Reference result: the errors of data lines `1 .. n - 1`, in order, numbered from 1 with the header as line 1. */
  function Failures(outs: seq<Result<string, LineFailure>>, n: nat): seq<LineError>
    requires 1 <= n <= |outs|
  {
    if n == 1 then []
    else
      var prior := Failures(outs, n - 1);
      match outs[n - 1]
      case Failure(e) => prior + [LineError(n, e)]
      case Success(_) => prior
  }

  /** Reference result: how many of data lines `1 .. n - 1` were inserted. */
  function Successes(outs: seq<Result<string, LineFailure>>, n: nat): nat
    requires 1 <= n <= |outs|
  {
    if n == 1 then 0
    else Successes(outs, n - 1) + (if outs[n - 1].Success? then 1 else 0)
  }

  /**
   * What the summary promises about the first `n` lines: every data line is
   * accounted for once, the errors are the failed lines in order with their
   * 1-based line numbers, and the count is the number of successes.
   */
  predicate Reports(sum: Summary, outs: seq<Result<string, LineFailure>>, n: nat)
    requires 1 <= n <= |outs|
  {
    && sum.imported + |sum.errors| == n - 1
    && sum.errors == Failures(outs, n)
    && sum.imported == Successes(outs, n)
    && (forall k :: 0 <= k < |sum.errors| ==>
          2 <= sum.errors[k].line <= n && outs[sum.errors[k].line - 1] == Failure(sum.errors[k].error))
    && (forall a, b :: 0 <= a < b < |sum.errors| ==> sum.errors[a].line < sum.errors[b].line)
  }

  /** The reference results satisfy the summary's promises. */
  lemma {:induction false} FailuresFacts(outs: seq<Result<string, LineFailure>>, n: nat)
    requires 1 <= n <= |outs|
    ensures Reports(Summary(Successes(outs, n), Failures(outs, n)), outs, n)
  {
    if n > 1 {
      FailuresFacts(outs, n - 1);
    }
  }

  /** The `try` block for one data line: build the row object, validate it, insert it. */
  method TryLine(deps: Deps, headers: seq<string>, lines: seq<string>, i: nat) returns (outcome: Result<string, LineFailure>)
    requires i < |lines|
    ensures outcome == LineOutcomes(deps, headers, lines)[i]
  {
    LineOutcomesAt(deps, headers, lines, i);
    var o := RowObject(headers, Cells(lines[i]), deps.today, deps.parseFloat, deps.blank);
    match deps.validate(o) {
      case Failure(fields) =>
        return Failure(Invalid(fields));
      case Success(d) =>
        match deps.insert(i, d) {
          case Some(msg) => return Failure(Rejected(msg));
          case None => return Success(d.slug);
        }
    }
  }

  /**
   * The loop over the data lines: every line is tried independently, the
   * failures collected in order and the successes counted.
   */
  method ImportLines(deps: Deps, headers: seq<string>, lines: seq<string>) returns (imported: nat, errors: seq<LineError>)
    requires |lines| >= 1
    ensures errors == Failures(LineOutcomes(deps, headers, lines), |lines|)
    ensures imported == Successes(LineOutcomes(deps, headers, lines), |lines|)
  {
    imported := 0;
    errors := [];
    ghost var outs := LineOutcomes(deps, headers, lines);
    var i := 1;
    while i < |lines|
      invariant 1 <= i <= |lines|
      invariant errors == Failures(outs, i)
      invariant imported == Successes(outs, i)
    {
      var outcome := TryLine(deps, headers, lines, i);
      match outcome {
        case Failure(e) =>
          assert Failures(outs, i + 1) == errors + [LineError(i + 1, e)] && Successes(outs, i + 1) == imported by {
            TallyFailure(outs, i, e);
          }
          errors := errors + [LineError(i + 1, e)];
        case Success(slug) =>
          assert Failures(outs, i + 1) == errors && Successes(outs, i + 1) == imported + 1 by {
            TallySuccess(outs, i, slug);
          }
          imported := imported + 1;
      }
      i := i + 1;
    }
  }

  /** A failed line appends its error to the tally and counts nothing. */
  lemma TallyFailure(outs: seq<Result<string, LineFailure>>, i: nat, e: LineFailure)
    requires 1 <= i < |outs| && outs[i] == Failure(e)
    ensures Failures(outs, i + 1) == Failures(outs, i) + [LineError(i + 1, e)]
    ensures Successes(outs, i + 1) == Successes(outs, i)
  {
  }

  /** An inserted line is counted and adds no error. */
  lemma TallySuccess(outs: seq<Result<string, LineFailure>>, i: nat, slug: string)
    requires 1 <= i < |outs| && outs[i] == Success(slug)
    ensures Failures(outs, i + 1) == Failures(outs, i)
    ensures Successes(outs, i + 1) == Successes(outs, i) + 1
  {
  }

  /**
   * The handler: 500 without a database, 400 without a CSV string, and
   * otherwise 200 with the tally of the data lines (the header being line 1).
   */
  method ImportCsv(db: bool, csvData: JsVal, deps: Deps) returns (reply: Routes.Reply<Summary>)
    ensures !db ==> reply == Routes.Reply(500, Failure(Routes.DB_MISSING))
    ensures db && !(Truthy(csvData) && csvData.Str?) ==> reply == Routes.Reply(400, Failure(NO_CSV))
    ensures db && Truthy(csvData) && csvData.Str? ==>
      var lines := Lines(csvData.s);
      && reply.status == 200 && reply.body.Success?
      && Reports(reply.body.value, LineOutcomes(deps, Cells(lines[0]), lines), |lines|)
  {
    if !db {
      return Routes.Reply(500, Failure(Routes.DB_MISSING));
    }
    if !(Truthy(csvData) && csvData.Str?) {
      return Routes.Reply(400, Failure(NO_CSV));
    }
    var lines := Lines(csvData.s);
    var headers := Cells(lines[0]);
    var imported, errors := ImportLines(deps, headers, lines);
    FailuresFacts(LineOutcomes(deps, headers, lines), |lines|);
    return Routes.Reply(200, Success(Summary(imported, errors)));
  }
}
