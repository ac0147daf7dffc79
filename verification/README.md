# aitoolpro: a verified model of the tool directory's core

aitoolpro is a directory of AI tools. This project models in Dafny the parts of
it that make decisions, and proves properties of that model:

- **The tool catalogue store** (`server/storage.ts`). There are two backends.
  - The JSON-file store keeps an in-memory `Map` from id to tool (`JsonStorage`).
  - The Postgres store keeps rows in a table (`PostgresStorage`), modelled as a sequence of rows.
  - Both provide duplicate detection, search, create, partial update and delete. The Postgres store differs in how it treats `lastUpdated` and nullish fields.
- **The zod schema** (`shared/schema.ts`). It is a parser from untyped JSON objects to typed tool records (`Schema`), built on a small JSON value type (`Json`).
- **The Express routes** (`server/routes.ts`):
  - the four-way listing filter;
  - the slug, PATCH and DELETE status rules (`Routes`);
  - the naive CSV bulk importer (`CsvImport`).
- **Admin authentication:**
  - the stateless signed session token, the `Cookie` header parser and the `Set-Cookie` serialisers (`shared/adminAuth.ts`, `AdminAuth`);
  - the older stateful gate over a set of hashed tokens (`server/auth.ts`, `ServerAuth`);
  - the serverless login and session handlers (`api/admin/login.ts`, `api/admin/session.ts`, `AdminApi`).
- **Client logic:**
  - the catalogue filter and category chips (`Home`);
  - the admin page counter (`AdminPage`);
  - the editor's comma-list parsing (`ToolForm`).
- **The Kaggle import script** (`scripts/import_kaggle_data.py`, `Kaggle`):
  - `slugify`, `parse_list`, `parse_pricing` and the rating clamp;
  - the per-row record builder with its cleanup;
  - the CSV and JSON exports.

The helper modules `Wrappers` (`Option`, `Result`), `Text` (splitting, joining, trimming, ASCII lower-casing, substring search) and `Seqs` (filter, map, find, distinct, sortedness) hold the generic definitions the others share.

Some things are parameters rather than code:
- HMAC, base64url, JSON text, `decodeURIComponent`, random token generation, zod's `.url()` check, `parseFloat`/`parseInt` and Python's `str()`/`float()`. Each is a function value in a record, and a predicate names only the laws the proofs need. Examples are `decode(encode(p)) == p` for the token payload, and `str` of a string being the string.
- The clock, `NODE_ENV` and the environment variables.

## Model

| member | source | states |
|---|---|---|
| JsonStorage.IdIndex | server/storage.ts:139-142 | the position of an id in the store, or -1 exactly when no stored tool has that id |
| JsonStorage.Lookup | server/storage.ts:139-142 | `Map.get`: absent exactly when no tool has the id; otherwise a stored tool with that id |
| JsonStorage.IdIndexUnique | server/storage.ts:25 | with unique ids, looking up a stored tool's id finds that very tool's position |
| JsonStorage.SetToolSpec | server/storage.ts:203 | `Map.set` keeps ids unique, makes the id map to the new tool and leaves every other id's lookup unchanged |
| JsonStorage.RemoveUnique | server/storage.ts:239 | removing one position keeps ids unique and shifts the later tools down by one |
| JsonStorage.RemoveOther | server/storage.ts:239 | removing one tool leaves the lookup of every other id unchanged |
| JsonStorage.RemoveSpec | server/storage.ts:239 | `Map.delete` leaves ids unique, makes the id absent, keeps every other id, and shrinks the store by one exactly when the id was present |
| JsonStorage.LoadSpec | server/storage.ts:63 | building the map from the file's array gives unique ids, and an id is present exactly when some tool in the file carries it |
| JsonStorage.LoadKeepsLast | server/storage.ts:98 | when the file repeats an id, the map holds the last tool with that id |
| JsonStorage.GetToolBySlug | server/storage.ts:144-147 | absent exactly when no tool has the slug; otherwise a stored tool with exactly that slug |
| JsonStorage.GetToolByWebsiteUrl | server/storage.ts:149-154 | absent exactly when no tool has the URL; otherwise a stored tool with exactly that URL |
| JsonStorage.FindDuplicateTool | server/storage.ts:156-163 | a tool is found exactly when some stored tool's name equals the given name case-insensitively or its URL equals the given URL; a name clash alone suffices |
| JsonStorage.SearchTools | server/storage.ts:165-176 | a tool is returned exactly when it is stored and the lower-cased query occurs in its lower-cased name, description, short description, category or some tag |
| JsonStorage.SearchEmptyIsAll | server/storage.ts:165-176 | the empty query returns every stored tool in map order |
| JsonStorage.GetToolsByCategory | server/storage.ts:178-183 | a tool is returned exactly when it is stored and its category equals the given one case-insensitively |
| JsonStorage.CreateTool | server/storage.ts:185-207 | a read-only store or a duplicate name/URL fails with nothing changed; on success the new tool is the input under the fresh id with `lastUpdated` set to today, it is the only new entry, and every other id's lookup is unchanged |
| JsonStorage.CreateAppends | server/storage.ts:196-204 | a successful create under a fresh id appends exactly one tool at the end of the map's order |
| JsonStorage.SpreadEmpty | server/storage.ts:220-227 | spreading an empty update over a record changes nothing |
| JsonStorage.SpreadIdempotent | server/storage.ts:220-227 | applying the same update twice is applying it once |
| JsonStorage.SpreadFull | server/storage.ts:220-227 | an update that carries every field of a record replaces all of the old record's fields |
| JsonStorage.UpdateTool | server/storage.ts:209-231 | read-only fails; an unknown id fails with "not found"; on success the id is kept, fields present in the update win, the rest keep their old values, `lastUpdated` is today, the size is unchanged and other ids are untouched |
| JsonStorage.UpdateEmptyTouchesOnlyDate | server/storage.ts:220-227 | an empty update of a stored tool changes only its `lastUpdated`, in place |
| JsonStorage.DeleteTool | server/storage.ts:233-245 | fails exactly in read-only mode; otherwise reports whether the id was present, the id is then absent, other ids are untouched, and a miss leaves the store as it was |
| JsonStorage.CreateThenDelete | server/storage.ts:185-245 | deleting a just-created tool succeeds, reports true, and gives back the lookups of the store before the create |
| PostgresStorage.MapRowToTool | server/storage.ts:273-298 | every row maps to a tool with the same id, slug and name; missing `features`/`tags` columns become empty lists and present ones are kept |
| PostgresStorage.RowRoundTrip | server/storage.ts:273-298 | storing a tool as a row and mapping it back gives the same tool |
| PostgresStorage.RowNormalises | server/storage.ts:273-298 | mapping a row to a tool and back changes only the missing lists, which become empty |
| PostgresStorage.RowIndex | server/storage.ts:404-435 | the position of the row with an id, or -1 exactly when no row has it |
| PostgresStorage.GetToolById | server/storage.ts:404-435 | absent exactly when no row has the id; otherwise the mapped tool of a row with that id |
| PostgresStorage.FindDuplicateTool | server/storage.ts:503-538 | a tool is found exactly when some row clashes on case-insensitive name or exact URL, and it is that row's tool |
| PostgresStorage.DuplicateAgrees | server/storage.ts:503-538 | the Postgres and JSON stores detect a duplicate on exactly the same data |
| PostgresStorage.NormalizeInsertSpec | server/storage.ts:360-370 | `normalizeInsert` always supplies `features` and `tags`, keeps given ones, leaves the nested and optional lists' values as they were, and is idempotent |
| PostgresStorage.CreateTool | server/storage.ts:615-705 | a duplicate clash fails; on success one row is appended for the normalised input under the new id, and the caller's `lastUpdated` is kept, falling back to today only when absent |
| PostgresStorage.CreateDateSideBySide | server/storage.ts:615-705 | for the same complete input, the JSON store stamps today while Postgres keeps the input's `lastUpdated` |
| PostgresStorage.Merge | server/storage.ts:714-725 | each of `features`, `tags`, `socialLinks`, `useCases`, `screenshots` and `pricingDetails` comes from the update only when it gives a value and otherwise keeps the old one; `lastUpdated` is today; every other field is the one the JSON store's spread gives |
| PostgresStorage.MergeSideBySide | server/storage.ts:708-780 | the Postgres merge equals the JSON spread exactly when no nested field is cleared that had a value; a cleared `socialLinks` or `pricingDetails` is dropped by the JSON store and kept by Postgres |
| PostgresStorage.UpdateTool | server/storage.ts:708-780 | "not found" exactly when no row has the id; on success that row alone is replaced by the merged tool, the table size is unchanged and `lastUpdated` is today |
| PostgresStorage.DeleteTool | server/storage.ts:781-799 | reports whether a row had the id; afterwards no row has it and every other row is kept |
| Schema.NoIssuesIffConforms | shared/schema.ts:4-37 | the list of validation issues is empty exactly when the object conforms to the schema field by field |
| Schema.ConformsEncoded | shared/schema.ts:4-37 | an object that encodes a typed record conforms exactly when the record is valid: its website URL is a URL, its rating is within 0..5 and its optional URLs are URLs |
| Schema.BuildEncoded | shared/schema.ts:4-37 | a conforming object that encodes a record is built back into exactly that record |
| Schema.ParseEncoded | shared/schema.ts:4-39 | `insertToolSchema.parse` accepts an encoding exactly when the record is valid, and then returns that record |
| Schema.ParseToJs | shared/schema.ts:4-39 | round trip: parsing the JSON form of a record gives the record back exactly when it is valid |
| Schema.ToJsEncodes | shared/schema.ts:4-37 | the JSON form of every record encodes it |
| Schema.SocialRoundTrip | shared/schema.ts:21-26 | `socialLinks` admits only its four optional keys, and its JSON form reads back unchanged |
| Schema.PricingRoundTrip | shared/schema.ts:29-34 | `pricingDetails` admits only its four optional keys, and its JSON form reads back unchanged |
| Schema.OptArrRoundTrip | shared/schema.ts:27-28 | an optional string list's JSON form passes its field check and reads back unchanged |
| Schema.InsertIgnoresId | shared/schema.ts:39 | the insert schema ignores whatever `id` the object carries |
| Schema.ToolIsInsertPlusId | shared/schema.ts:4-39 | the tool schema accepts exactly the objects with a string `id` that the insert schema accepts, giving the same record with that id |
| Schema.ParsedPartial | shared/schema.ts:4-39 | the parsed object holds only keys the schema declares, at the top and inside `socialLinks`/`pricingDetails`, and the schema sees in it exactly what it sees in the body |
| Schema.ParsedPartialAgrees | shared/schema.ts:21-34 | two bodies the schema cannot tell apart, nested objects included, parse to the same object |
| Schema.IssuesAgree | shared/schema.ts:4-37 | two bodies the schema cannot tell apart raise the same validation issues |
| Schema.UnknownKeysAgree | shared/schema.ts:4-39 | adding top-level keys the schema does not declare leaves what it sees unchanged |
| Schema.NestedUnknownKeyStripped | shared/schema.ts:21-26 | `socialLinks: {twitter: "x", junk: "y"}` parses to `socialLinks: {twitter: "x"}` |
| Schema.AsRecordFull | server/storage.ts:615-705 | a complete record survives the trip through a partial record |
| Routes.Classify | server/routes.ts:76-80 | the four branches are chosen exactly by whether search and category are strings that are non-empty after trimming |
| Routes.SelectedIsWanted | server/routes.ts:80-162 | the SQL of each branch selects exactly the rows the reference filter wants: a case-insensitive match of the trimmed term in name, description or short description, and exact category equality |
| Routes.ListTools | server/routes.ts:66-165 | without a database the reply is 500; otherwise 200 with exactly the wanted rows, projected and ordered by name |
| Routes.WantedHits | server/routes.ts:80-162 | whatever branch is taken and however the hits are ordered, the result holds exactly the wanted rows |
| Routes.ListFacts | server/routes.ts:80-162 | projecting rows sorted by name keeps them sorted and keeps exactly their projections |
| Routes.ListAllWhenUnfiltered | server/routes.ts:80-97 | with neither filter present every row is listed |
| Routes.GetToolBySlug | server/routes.ts:173-212 | 404 exactly when no row has the slug; otherwise 200 with a row having exactly that slug |
| Routes.CreateTool | server/routes.ts:220-252 | 400 "Validation error" exactly when the insert schema rejects the body; 201 carries the insert of the parsed record |
| Routes.UpdateTool | server/routes.ts:257-289 | 400 exactly when the partial schema reports issues for the body; 404 exactly when the body is valid and no row was updated; 200 carries the first updated row; the statement is built from the parsed partial, which holds only the schema's keys, nested ones included |
| Routes.UpdateIgnoresUnknownKeys | server/routes.ts:262-274 | two bodies that differ only in keys the schema does not declare, at the top or inside `socialLinks`/`pricingDetails`, get the same validation, the same update statement and the same reply |
| Routes.DeleteTool | server/routes.ts:293-309 | 404 exactly when no row has the id; otherwise `{success: true}`; afterwards exactly the rows with other ids remain |
| Routes.EmptyPatchIsValid | server/routes.ts:262 | the partial schema accepts an empty body |
| CsvImport.Lines | server/routes.ts:324 | the trimmed payload always splits into at least one line |
| CsvImport.Cells | server/routes.ts:325-331 | a line splits into at least one cell, and no cell contains a comma or edge whitespace |
| CsvImport.ZipKeys | server/routes.ts:333 | the zipped row has exactly the headers as keys |
| CsvImport.ZipLastWins | server/routes.ts:333 | for a repeated header, the row holds the cell of the last occurrence |
| CsvImport.Pipes | server/routes.ts:334-339 | a `features`/`tags` cell always becomes a string list |
| CsvImport.AsWrittenRejectsBlankRating | server/routes.ts:340 | as written, a row whose rating cell is blank or missing is always rejected, because the rating becomes `null` |
| CsvImport.CorrectedAcceptsBlankRating | server/routes.ts:340 | with the rating left out instead, a blank rating passes the rating check |
| CsvImport.RatingFindingExample | server/routes.ts:324-345 | a concrete valid seven-column line is rejected as written and imported after the correction |
| CsvImport.LineOutcomeBySchema | server/routes.ts:329-366 | for either treatment of a blank rating, a line fails validation exactly when the schema rejects its row, and succeeds exactly when the row parses and its insert does not fail |
| CsvImport.AsWrittenFailsRatinglessLine | server/routes.ts:330-345 | as written, every data line without a rating is reported as a validation failure, whatever the database would do |
| CsvImport.AsWrittenNoRatingColumn | server/routes.ts:324-368 | as written, a CSV without a `rating` column imports nothing: no line is counted and every data line is reported as an error |
| CsvImport.ExampleLineAsWritten | server/routes.ts:330-345 | the example line `a,A,d,s,c,Free,u` under the seven-column header is reported invalid by the handler as written |
| CsvImport.ExampleLineCorrected | server/routes.ts:330-365 | corrected, the same line inserts the expected record and succeeds exactly when the insert does |
| CsvImport.JoinedCells | server/routes.ts:325-331 | cells without commas or edge blanks, joined by commas, are split back into the same cells |
| CsvImport.LineOutcomesAt | server/routes.ts:329-366 | every data line is attempted independently of the others |
| CsvImport.FailuresFacts | server/routes.ts:329-368 | imported plus errors equals the number of data lines, and error line numbers strictly increase within 2..number of lines |
| CsvImport.TryLine | server/routes.ts:330-365 | one attempt gives that line's outcome, with the blank rating of the dependencies (`null` as written) |
| CsvImport.ImportLines | server/routes.ts:329-366 | the loop counts exactly the successes and collects exactly the failures with their line numbers, as written or corrected according to the dependencies' blank rating |
| CsvImport.ImportCsv | server/routes.ts:314-372 | 500 without a database, 400 when `csvData` is missing or not a string, else 200 with a summary that reports every line's outcome; with `null` blanks this is the handler as written, with `undefined` blanks the corrected one |
| AdminAuth.AdminPassword | shared/adminAuth.ts:14-16 | `ADMIN_PASSWORD`, or "admin" when unset |
| AdminAuth.SessionSecret | shared/adminAuth.ts:6-12 | `ADMIN_SESSION_SECRET` whenever it is set, even when empty |
| AdminAuth.SecretFallsBackToPassword | shared/adminAuth.ts:6-12 | without `ADMIN_SESSION_SECRET` the signing secret is the admin password, with the same default |
| AdminAuth.IsPasswordValid | shared/adminAuth.ts:18-21 | true exactly for a non-empty password equal to the admin password |
| AdminAuth.DecodePayload | shared/adminAuth.ts:32-48 | a payload is decoded exactly when the segment parses to an object with numeric `iat` and `exp`, and it carries those numbers |
| AdminAuth.DecodeEncoded | shared/adminAuth.ts:28-48 | decoding an encoded payload gives it back |
| AdminAuth.CreatedTokenParts | shared/adminAuth.ts:57-65 | a created token is two dot-separated segments: a payload that decodes to `iat` = first clock reading and `exp` = second reading + 7 days, and its signature; `exp >= iat` + TTL whenever the second clock reading is not earlier than the first |
| AdminAuth.TokenSegments | shared/adminAuth.ts:57-65 | a payload joined to its signature splits back into exactly those two segments |
| AdminAuth.VerifySessionToken | shared/adminAuth.ts:67-70 | an absent or empty token never verifies |
| AdminAuth.VerifyCharacterised | shared/adminAuth.ts:67-90 | a token verifies exactly when its first two segments are non-empty, the second's bytes equal the signature of the first, the first decodes, and the clock is not past `exp`; later segments are ignored |
| AdminAuth.VerifyNeedsSignature | shared/adminAuth.ts:68-70 | a token without a dot never verifies |
| AdminAuth.CreatedTokenVerifies | shared/adminAuth.ts:57-90 | a created token verifies at every clock value up to its expiry |
| AdminAuth.CreatedTokenExpires | shared/adminAuth.ts:57-90 | a created token fails to verify at every clock value after its expiry |
| AdminAuth.CreatedTokenShape | shared/adminAuth.ts:57-65 | a created token is `encode(p) + "." + sign(encode(p))` with both parts non-empty and dot-free |
| AdminAuth.PieceParts | shared/adminAuth.ts:96-99 | a piece `name=value` yields that name and the decoded trimmed value, whatever `=` the value holds |
| AdminAuth.ParseCookies | shared/adminAuth.ts:92-95 | an absent or empty header gives no cookies |
| AdminAuth.CookieKeys | shared/adminAuth.ts:96-101 | the parsed names are exactly those of the pieces that have a name |
| AdminAuth.CookieLastWins | shared/adminAuth.ts:96-101 | a later piece with the same name overwrites an earlier one |
| AdminAuth.SessionCookieEcho | shared/adminAuth.ts:92-102 | a header `admin_session=<token>` parses back to the token |
| AdminAuth.SessionCookieParts | shared/adminAuth.ts:104-133 | the serialised cookie has the pair first, `Max-Age` fifth, and a sixth `Secure` part exactly when secure |
| AdminAuth.MaxAgeIsTtl | shared/adminAuth.ts:113 | the session cookie's `Max-Age` is 604800 seconds |
| AdminAuth.SetCookieReadsBack | shared/adminAuth.ts:92-119 | the `Set-Cookie` string, read back by the cookie parser, gives the token under `admin_session` |
| AdminAuth.ClearCookieReadsEmpty | shared/adminAuth.ts:92-133 | the clearing cookie reads back as an empty `admin_session` |
| AdminAuth.SerializedReadsBack | shared/adminAuth.ts:92-133 | any cookie serialised this way reads back its value, whatever the attributes |
| ServerAuth.SessionSecret | server/auth.ts:6-7 | never empty: `ADMIN_SESSION_SECRET` when non-empty, else a non-empty `ADMIN_PASSWORD`, else "secret" |
| ServerAuth.SecretSkipsEmpty | server/auth.ts:6-7 | with an empty `ADMIN_SESSION_SECRET` the server signs with the password while the shared token code signs with the empty string |
| ServerAuth.SessionToken | server/auth.ts:27-30 | a token is read exactly when the parsed cookies contain `admin_session` |
| ServerAuth.IsAdminAuthenticated | server/auth.ts:36-40 | authenticated exactly when a non-empty session token's hash is in the active set; no expiry is checked |
| ServerAuth.SetAdminSession | server/auth.ts:42-53 | adds the token's hash to the set and sets an HttpOnly, lax, root-path cookie lasting the TTL, secure exactly in production |
| ServerAuth.ClearAdminSession | server/auth.ts:55-61 | clears the cookie, and only the hash of the request's own token can leave the set |
| ServerAuth.RequireAdminApi | server/auth.ts:63-79 | 500 when no admin password is configured, whatever the cookie; otherwise next exactly when authenticated, else 401 |
| ServerAuth.RedirectIfUnauthenticated | server/auth.ts:81-97 | next when unconfigured or authenticated, otherwise a redirect to `/admin/login` |
| ServerAuth.ApiGateStricter | server/auth.ts:63-97 | whatever the API gate lets through the page gate does too; unconfigured, the page gate fails open and the API gate fails closed |
| ServerAuth.SetThenAuthenticated | server/auth.ts:36-53 | after `setAdminSession` issues a token, a request carrying it as `admin_session` is authenticated |
| ServerAuth.SetKeepsOthers | server/auth.ts:42-44 | issuing a session keeps every authenticated request authenticated |
| ServerAuth.ClearRevokesOnlyThisSession | server/auth.ts:55-61 | after logout the token is no longer authenticated, while a session with a different hash keeps its status |
| ServerAuth.ClearWithoutCookieKeepsSessions | server/auth.ts:55-61 | logout without a session cookie leaves the set unchanged |
| ServerAuth.LoginOpensApi | server/auth.ts:42-79 | when configured, the API gate lets through the cookie a fresh session sets |
| AdminApi.PostedPassword | api/admin/login.ts:37 | `req.body?.password ?? ""` is never undefined or null, and is the posted field when one is given |
| AdminApi.Login | api/admin/login.ts:29-58 | OPTIONS gives 200 with an empty body; other non-POST methods give 405; with a password required, 400 exactly for an empty password and 401 exactly for a wrong one, both without a cookie; a cookie is set exactly on a 200 POST, carrying a fresh token and the TTL |
| AdminApi.LoginNeedsThePassword | api/admin/login.ts:38-50 | with a password required, login succeeds exactly when the posted value is the non-empty admin password |
| AdminApi.LoginOpenWithoutPassword | api/admin/login.ts:38-50 | with no password required, every POST logs in |
| AdminApi.CookieToken | api/admin/session.ts:34-35 | the token is the parsed `admin_session` cookie, when there is one |
| AdminApi.Session | api/admin/session.ts:26-41 | OPTIONS gives 200; other non-GET methods give 405; GET gives 200 `{authenticated: true}` exactly when the cookie's token verifies, else 401 `{authenticated: false}` |
| AdminApi.NoCookieNoSession | api/admin/session.ts:34-41 | without a session cookie, or with an empty one, the session check answers 401 |
| AdminApi.LoginThenSession | api/admin/login.ts:50-58 | the cookie a successful login sets, sent back, passes the session check exactly until the token expires |
| Home.FilteredTools | client/src/pages/Home.tsx:30-42 | the filter never adds tools |
| Home.MatchesIsWanted | client/src/pages/Home.tsx:31-40 | a tool passes exactly when the query is empty or a case-insensitive substring of its name, description or some tag, and no category is selected or its category is equal |
| Home.FilteredAreWanted | client/src/pages/Home.tsx:30-42 | exactly the wanted tools are shown |
| Home.UnfilteredShowsAll | client/src/pages/Home.tsx:32-37 | an empty query with no category shows every tool, in order |
| Home.FilterKeepsOrder | client/src/pages/Home.tsx:30-42 | the result is an order-preserving subsequence: filtering distributes over concatenation |
| Home.ShortDescriptionIgnored | client/src/pages/Home.tsx:33-35 | tools that differ only in short description are filtered alike |
| Home.Categories | client/src/pages/Home.tsx:25-28 | each category occurs once, exactly the categories of the tools occur, in order of first appearance |
| AdminPage.CeilDiv | client/src/pages/Admin.tsx:44 | `Math.ceil(n / d)` is the least multiple count covering `n`, negative `n` included |
| AdminPage.Total | client/src/pages/Admin.tsx:35-43 | 0 before data arrives; the item count without a header; the parsed header otherwise, `NaN` exactly when it does not parse |
| AdminPage.TotalPages | client/src/pages/Admin.tsx:44 | at least 1 for a numeric total, covering the total in pages of 20; `NaN` exactly for a `NaN` total |
| AdminPage.PagesCoverTotal | client/src/pages/Admin.tsx:44 | every item index falls on some page, and the last page is not empty |
| AdminPage.Previous | client/src/pages/Admin.tsx:148 | `NaN` exactly for a `NaN` page; otherwise never below 1, and one less whenever the page is above 1 |
| AdminPage.Next | client/src/pages/Admin.tsx:151 | `NaN` exactly when the page or the page count is `NaN`; otherwise never above the page count or one more than the page, and exactly one more when that fits |
| AdminPage.StartsInRange | client/src/pages/Admin.tsx:21-44 | the initial page 1 is within range for every numeric total |
| AdminPage.ButtonsKeepRange | client/src/pages/Admin.tsx:148-151 | from a page within 1..totalPages, an enabled button moves by exactly one and stays within range; Previous is disabled exactly on page 1 and Next exactly on the last page |
| AdminPage.UnparsableTotal | client/src/pages/Admin.tsx:37-151 | an unparsable total header makes the page count `NaN`; then, whatever the page, Next stays enabled and makes the page `NaN` |
| AdminPage.NaNPageButtons | client/src/pages/Admin.tsx:148-151 | with a `NaN` page both buttons are enabled, whatever the page count, and either click leaves the page `NaN` |
| AdminPage.NaNPageSticks | client/src/pages/Admin.tsx:21-151 | once the page is `NaN`, every run of clicks leaves it `NaN`, whatever page counts later loads report |
| ToolForm.CommaItems | client/src/components/ToolForm.tsx:51-57 | every parsed item is non-empty, comma-free and trimmed |
| ToolForm.TrimAll | client/src/components/ToolForm.tsx:52-56 | each piece trimmed, with no edge whitespace, and trimming adds no comma |
| ToolForm.TrimAllClean | client/src/components/ToolForm.tsx:52-56 | trimming leaves clean items alone |
| ToolForm.CommaItemsJoin | client/src/components/ToolForm.tsx:51-57 | clean items joined by commas parse back to themselves |
| ToolForm.CommaItemsIdempotent | client/src/components/ToolForm.tsx:51-57 | re-parsing the comma-joined result changes nothing |
| ToolForm.Submit | client/src/components/ToolForm.tsx:59 | the submitted record is the form data with only `features` and `tags` replaced |
| ToolForm.SubmitIdempotent | client/src/components/ToolForm.tsx:50-60 | submitting the submitted record again changes nothing |
| Kaggle.KeepSlugChars | scripts/import_kaggle_data.py:34 | keeps only word characters, whitespace and hyphens, all taken from the input |
| Kaggle.Collapse | scripts/import_kaggle_data.py:35 | no whitespace and no `--` remain, a leading separator run becomes one hyphen, and slug characters stay slug characters |
| Kaggle.CollapseKeepsWords | scripts/import_kaggle_data.py:35 | collapsing separator runs keeps every other character in order |
| Kaggle.CollapseOfSlug | scripts/import_kaggle_data.py:35 | a slug is left unchanged by collapsing |
| Kaggle.SlugifyText | scripts/import_kaggle_data.py:33-35 | the result is a slug: lower-case word characters and hyphens, with no whitespace and no `--` |
| Kaggle.Slugify | scripts/import_kaggle_data.py:28-36 | a slug always, and the empty string for missing or empty input |
| Kaggle.SlugifyIdempotent | scripts/import_kaggle_data.py:33-35 | over ASCII, slugifying a slug changes nothing |
| Kaggle.ParsePricingAsWritten | scripts/import_kaggle_data.py:49-64 | as written: "Unknown" for missing input, and "Free" whenever "free" occurs, "freemium" included |
| Kaggle.ParsePricing | scripts/import_kaggle_data.py:49-64 | "Unknown" for missing input, "Freemium" whenever "freemium" occurs, "Free" when only "free" does |
| Kaggle.FreemiumHoldsFree | scripts/import_kaggle_data.py:55-58 | every text containing "freemium" contains "free" |
| Kaggle.FreemiumUnreachable | scripts/import_kaggle_data.py:55-58 | as written, `parse_pricing` never returns "Freemium", not even through its fall-through branch |
| Kaggle.FreemiumReachable | scripts/import_kaggle_data.py:55-58 | the corrected parser returns "Freemium" exactly for non-missing text containing "freemium" |
| Kaggle.PricingFixIsLocal | scripts/import_kaggle_data.py:49-64 | the correction changes nothing for text without "freemium" |
| Kaggle.PricingFindingExample | scripts/import_kaggle_data.py:55-58 | the value "Freemium" is classified "Free" as written and "Freemium" after the correction |
| Kaggle.StripAll | scripts/import_kaggle_data.py:46 | each item stripped, position by position, with no edge whitespace left |
| Kaggle.CommaPieces | scripts/import_kaggle_data.py:46 | the split pieces are comma-free and stripped |
| Kaggle.ParseList | scripts/import_kaggle_data.py:39-46 | missing input gives `[]`; every item is stripped; a string gives non-empty comma-free items; a list gives at most its own number of items |
| Kaggle.ParseListJoin | scripts/import_kaggle_data.py:39-46 | clean items joined by commas parse back to themselves |
| Kaggle.BlankListItemKept | scripts/import_kaggle_data.py:44 | a list item of spaces is truthy, so it is kept as an empty string |
| Kaggle.Clamp | scripts/import_kaggle_data.py:104 | the result lies in 0..5 and is the point of that range nearest the input |
| Kaggle.RatingOf | scripts/import_kaggle_data.py:99-108 | missing or list ratings give none; numbers are clamped; text gives a rating exactly when `float()` accepts it; any rating lies in 0..5 |
| Kaggle.RatingInRangeKept | scripts/import_kaggle_data.py:104 | a rating already in 0..5 is kept as it is |
| Kaggle.RowGet | scripts/import_kaggle_data.py:82-115 | nested `row.get(a, row.get(b, d))`: the first present column wins, else the default |
| Kaggle.Field | scripts/import_kaggle_data.py:87-97 | every text field is stripped |
| Kaggle.OrNone | scripts/import_kaggle_data.py:94-97 | `x or None`: none exactly for the empty string |
| Kaggle.Take | scripts/import_kaggle_data.py:88 | `s[:n]` is the prefix of length `min(n, |s|)` |
| Kaggle.Gather | scripts/import_kaggle_data.py:118-140 | a key is present exactly when its column is present, and every value is a string |
| Kaggle.ObjOrNone | scripts/import_kaggle_data.py:128-140 | none exactly for an empty object |
| Kaggle.RatingValue | scripts/import_kaggle_data.py:99-108 | none, or a number in 0..5 |
| Kaggle.RowUseCases | scripts/import_kaggle_data.py:115-116 | none, or a list |
| Kaggle.MapRecord | scripts/import_kaggle_data.py:82-84 | a row is skipped exactly when its stripped name is empty |
| Kaggle.RecordBasics | scripts/import_kaggle_data.py:82-147 | an emitted record has its stripped name, no id, and no none or empty value |
| Kaggle.RecordSlug | scripts/import_kaggle_data.py:86-147 | the slug field is present exactly when the slugified slug (or name) is non-empty, and it is a slug |
| Kaggle.RecordRating | scripts/import_kaggle_data.py:99-147 | the rating is present exactly when one was read, and then lies in 0..5 |
| Kaggle.RecordLists | scripts/import_kaggle_data.py:110-112 | `features` and `tags` are always present, as the parsed lists |
| Kaggle.RecordPricingAndDate | scripts/import_kaggle_data.py:90-147 | the pricing field is the label of the run's `parse_pricing` (the script's own, or the corrected one), and the date is today's whenever it is non-empty |
| Kaggle.PriceLabel | scripts/import_kaggle_data.py:49-64 | the script's `parse_pricing` never gives "Freemium"; the corrected one gives it exactly for non-missing text containing "freemium" |
| Kaggle.RecordFreemium | scripts/import_kaggle_data.py:90-147 | the script never records the pricing "Freemium"; the corrected mapping records it exactly when the pricing cell contains "freemium" |
| Kaggle.FreemiumRowExample | scripts/import_kaggle_data.py:55-90 | the row `{"name": "A", "pricing": "Freemium"}` is recorded with pricing "Free" by the script and "Freemium" by the corrected mapping |
| Kaggle.ShortDescriptionDefault | scripts/import_kaggle_data.py:88-147 | without a short-description column, the short description is the first 100 characters of the description, stripped, and kept only when non-empty |
| Kaggle.MapKaggleToSchema | scripts/import_kaggle_data.py:67-151 | the output is the record of every named row, in row order, under the run's pricing rule (the script's own `parse_pricing` as written) |
| Kaggle.HeaderReadsBack | scripts/import_kaggle_data.py:157-161 | the export header, joined with commas and split and trimmed by the CSV import, gives back the same column names, and each is a field the insert schema keeps |
| Kaggle.ExportedListReadsBack | scripts/import_kaggle_data.py:168-170 | a pipe-joined list cell, split on pipes by the importer, gives back the same items |
| Kaggle.ExportedLineSplits | server/routes.ts:331 | a line of comma-free, stripped cells splits back into the same cells |
| Kaggle.ExportedFeaturesImport | scripts/import_kaggle_data.py:157-176 | an exported line, read by the importer, yields the tool's features again at column 9 |
| Kaggle.ZeroRatingExportsBlank | scripts/import_kaggle_data.py:172 | a rating of 0 is falsy and exports as a blank cell, which the importer treats as a blank rating |
| Kaggle.WithId | scripts/import_kaggle_data.py:183-186 | an id is added only when missing, as "kaggle-" followed by a slug; every other field is kept |
| Kaggle.ExportJsonIdempotent | scripts/import_kaggle_data.py:180-188 | exporting the exported tools again changes nothing |
| Kaggle.IdMatchesSlug | scripts/import_kaggle_data.py:86-186 | without a slug column, the JSON id is "kaggle-" followed by the record's own slug |

## Left out

- File I/O of the JSON store: initialisation, candidate paths, the temp-file save and the read-only detection. The store is an in-memory sequence of tools with distinct ids, kept in insertion order as a JavaScript `Map` is, plus a read-only flag.
- `getAllTools` and the Postgres `searchTools`/`getToolsByCategory`: plain SQL reads with `ILIKE`. The listing rules that matter are modelled in `Routes`. `ILIKE` is abstracted to case-insensitive substring search: the `%` and `_` wildcards and the `\` escape character in user terms are not modelled.
- The Postgres driver, JSONB encoding and table creation. Rows are a datatype and a table is a sequence of rows.
- Routes.CreateTool and Routes.UpdateTool: the camelCase `INSERT` column lists and the dynamic `SET` builder are foreign SQL. The insert and the update are parameters, so the contracts state only the status rules around them.
- Routes.ListTools: `ORDER BY name` leaves the order of equal names to the database. The model sorts stably by code point, which is what `ORDER BY name` gives only under the C collation; under a locale collation such as en_US the database orders case-insensitively ("apple" before "Banana"). The contract states only sortedness and which rows appear.
- `/health` and `/categories` routes: connection checks and a `DISTINCT` query, with no logic of their own.
- zod's `.url()`, `parseFloat`, `parseInt`, HMAC-SHA256, base64url, `JSON.stringify`/`JSON.parse`, `decodeURIComponent`, `timingSafeEqual`, `randomBytes` and `randomUUID`. They are function parameters constrained only by the laws the proofs need.
- `decodeURIComponent` throwing on a malformed escape (a request error in the source): the decoder is total here.
- The clock. `Date.now()` is read twice in `createSessionToken`, and the two readings are separate parameters.
- CsvImport.ImportCsv: the schema check is a parameter, because stating it inline made each proof too large; `CsvImport.LineOutcomeBySchema` ties a line's outcome to `Schema.ParseInsertTool` for any check that agrees with it. The insert is a parameter that may fail. What a blank rating becomes is a parameter as well: `null` models the handler as written, `undefined` the correction.
- The CSV importer's own `NOW()` in SQL: the stored date comes from the database, which is not modelled.
- JavaScript number semantics: ratings are reals; the admin page counter is an integer or `NaN`. Infinity and fractional totals are not modelled.
- Unicode: lower-casing, whitespace and Python's `\w` are ASCII-only.
- `api/admin/logout.ts`: it only sets a header, and its cookie string is `AdminAuth.SerializeClearAdminSessionCookie`.
- `isPasswordRequired`: imported by the login handler but not defined in the shared module, so it is a boolean input.
- CORS headers, Express `res.cookie`/`res.clearCookie` serialisation (ServerAuth returns the cookie's fields instead) and React rendering.
- AdminAuth.SerializeAdminSessionCookie: the exact header text is not proved equal to a literal. Its parts and its read-back through the cookie parser are proved instead.
- Server-side parseCookies in `server/auth.ts` is the same code as the shared one, so `ServerAuth` reuses `AdminAuth.ParseCookies`.
- Kaggle: kagglehub/pandas loading, pandas' CSV quoting, `json.dumps` text, printing and file writing.
  - Rows are maps from column names to cells: missing (NA), string, number or list.
  - `str()`, `float()` and `repr` of values are parameters.
  - Python's dict key order is not modelled: a record is a map from a field enumeration.
- Kaggle.ExportedFeaturesImport: requires every exported cell to be comma-free and stripped. pandas quotes cells that hold commas, and the importer's naive splitter would then break the line; that quoting is not modelled.
- Kaggle.RatingOf: `float("nan")` and infinities are not modelled; a parsed rating is a real.
- Kaggle.ParseList: for a list value, `pd.isna` of a list is not a single truth value in pandas. Lists are treated as never missing, and an empty list as falsy.
- Kaggle.WithId: when a tool's name is not a string, `slugify` is applied to `str()` of it. Records built by the script always have a string name.
- `scripts/import-kaggle.ts`, `seed-neon.ts`, `api/tools.ts`, the static pages and the admin edit page copy fields or talk to SQL, and are not part of this model.

## Findings

| source | as written | input that shows it | evidently intended | confidence | as-written member | corrected member |
|---|---|---|---|---|---|---|
| scripts/import_kaggle_data.py:55-58 | `"free" in value_str` is tested before `"freemium" in value_str`, so the Freemium branch can never be taken | the pricing value "Freemium" is classified "Free" | "Freemium" for values containing "freemium", "Free" for the other values containing "free" | high, not executed | Kaggle.FreemiumUnreachable, Kaggle.RecordFreemium, Kaggle.FreemiumRowExample | Kaggle.FreemiumReachable, Kaggle.ParsePricing, Kaggle.PriceLabel |
| server/routes.ts:340 | a blank or missing rating cell becomes `null`, and `z.number().min(0).max(5).optional()` (shared/schema.ts:17) rejects `null` | a seven-column line with slug, name, description, shortDescription, category, pricing and websiteUrl and no rating column is reported as a failed line | a blank rating is left out, so that the optional rating accepts the row | high, not executed | CsvImport.AsWrittenRejectsBlankRating, CsvImport.AsWrittenNoRatingColumn, CsvImport.ExampleLineAsWritten | CsvImport.CorrectedAcceptsBlankRating, CsvImport.ExampleLineCorrected, CsvImport.ImportCsv |
