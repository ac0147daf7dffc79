/**
 * The Tool entity and its validation schema (`toolSchema`, and
 * `insertToolSchema`, which is `toolSchema` without `id`).
 */
module Schema {
  import opened Wrappers
  import opened Json

  datatype SocialLinks = SocialLinks(
    twitter: Option<string>, github: Option<string>,
    linkedin: Option<string>, discord: Option<string>)

  datatype PricingDetails = PricingDetails(
    free: Option<string>, starter: Option<string>,
    pro: Option<string>, enterprise: Option<string>)

  /** Every field of a tool except `id`: an `InsertTool`. */
  datatype ToolData = ToolData(
    slug: string,
    name: string,
    description: string,
    shortDescription: string,
    category: string,
    pricing: string,
    websiteUrl: string,
    logoUrl: Option<string>,
    features: seq<string>,
    tags: seq<string>,
    badge: Option<string>,
    rating: Option<real>,
    sourceDetailUrl: Option<string>,
    developer: Option<string>,
    documentationUrl: Option<string>,
    socialLinks: Option<SocialLinks>,
    useCases: Option<seq<string>>,
    screenshots: Option<seq<string>>,
    pricingDetails: Option<PricingDetails>,
    launchDate: Option<string>,
    lastUpdated: string)

  /** A stored tool: an id together with the insertable fields. */
  datatype Tool = Tool(id: string, data: ToolData)

  /**
   * The constraints the schema adds to the field types: a URL-shaped website,
   * a rating in [0, 5] when present, URL-shaped source and documentation links
   * when present. `isUrl` stands for zod's `.url()` check. No string has a
   * minimum length and `logoUrl` is not checked as a URL.
   */
  predicate ValidData(d: ToolData, isUrl: string -> bool) {
    && isUrl(d.websiteUrl)
    && (d.rating.Some? ==> 0.0 <= d.rating.value <= 5.0)
    && (d.sourceDetailUrl.Some? ==> isUrl(d.sourceDetailUrl.value))
    && (d.documentationUrl.Some? ==> isUrl(d.documentationUrl.value))
  }

  // ---------------------------------------------------------------------
  // Field checks on untyped values, one per zod combinator used by the schema.

  const SOCIAL_KEYS: seq<string> := ["twitter", "github", "linkedin", "discord"]
  const PRICING_KEYS: seq<string> := ["free", "starter", "pro", "enterprise"]

  /** `z.string().optional()`: absent or a string (`null` is rejected). */
  predicate OptStringField(v: JsVal) {
    v.Undefined? || v.Str?
  }

  /** `z.string().url()`. */
  predicate UrlField(v: JsVal, isUrl: string -> bool) {
    v.Str? && isUrl(v.s)
  }

  /** `z.array(z.string())`. */
  predicate StringArrayField(v: JsVal) {
    v.Arr? && forall k :: 0 <= k < |v.items| ==> v.items[k].Str?
  }

  /** `z.number().min(0).max(5).optional()`. */
  predicate RatingField(v: JsVal) {
    v.Undefined? || (v.Num? && 0.0 <= v.x <= 5.0)
  }

  /** `z.object({...keys: z.string().optional()}).optional()`; other keys are stripped. */
  predicate KeyedField(v: JsVal, keys: seq<string>) {
    v.Undefined? || (v.Obj? && forall k :: k in keys ==> OptStringField(Get(v.fields, k)))
  }

  /** Names `k` as an issue unless its check passed or, in a partial schema, the value is absent. */
  function Issue(o: JsObject, k: string, ok: bool, partial: bool): seq<string> {
    if ok || (partial && Get(o, k).Undefined?) then [] else [k]
  }

  /**
   * The fields of `o` that `insertToolSchema` rejects, in schema order
   * (`partial` gives `insertToolSchema.partial()`, where every field may be absent).
   */
  function Issues(o: JsObject, isUrl: string -> bool, partial: bool): seq<string> {
    IssuesText(o, partial) + IssuesLinks(o, isUrl, partial)
    + IssuesOptional(o, isUrl, partial) + IssuesNested(o, partial)
  }

  function IssuesText(o: JsObject, partial: bool): seq<string> {
    Issue(o, "slug", Get(o, "slug").Str?, partial)
    + Issue(o, "name", Get(o, "name").Str?, partial)
    + Issue(o, "description", Get(o, "description").Str?, partial)
    + Issue(o, "shortDescription", Get(o, "shortDescription").Str?, partial)
    + Issue(o, "category", Get(o, "category").Str?, partial)
    + Issue(o, "pricing", Get(o, "pricing").Str?, partial)
  }

  function IssuesLinks(o: JsObject, isUrl: string -> bool, partial: bool): seq<string> {
    Issue(o, "websiteUrl", UrlField(Get(o, "websiteUrl"), isUrl), partial)
    + Issue(o, "logoUrl", OptStringField(Get(o, "logoUrl")), partial)
    + Issue(o, "features", StringArrayField(Get(o, "features")), partial)
    + Issue(o, "tags", StringArrayField(Get(o, "tags")), partial)
    + Issue(o, "badge", OptStringField(Get(o, "badge")), partial)
  }

  function IssuesOptional(o: JsObject, isUrl: string -> bool, partial: bool): seq<string> {
    Issue(o, "rating", RatingField(Get(o, "rating")), partial)
    + Issue(o, "sourceDetailUrl", Get(o, "sourceDetailUrl").Undefined? || UrlField(Get(o, "sourceDetailUrl"), isUrl), partial)
    + Issue(o, "developer", OptStringField(Get(o, "developer")), partial)
    + Issue(o, "documentationUrl", Get(o, "documentationUrl").Undefined? || UrlField(Get(o, "documentationUrl"), isUrl), partial)
    + Issue(o, "socialLinks", KeyedField(Get(o, "socialLinks"), SOCIAL_KEYS), partial)
  }

  function IssuesNested(o: JsObject, partial: bool): seq<string> {
    Issue(o, "useCases", Get(o, "useCases").Undefined? || StringArrayField(Get(o, "useCases")), partial)
    + Issue(o, "screenshots", Get(o, "screenshots").Undefined? || StringArrayField(Get(o, "screenshots")), partial)
    + Issue(o, "pricingDetails", KeyedField(Get(o, "pricingDetails"), PRICING_KEYS), partial)
    + Issue(o, "launchDate", OptStringField(Get(o, "launchDate")), partial)
    + Issue(o, "lastUpdated", Get(o, "lastUpdated").Str?, partial)
  }

  /** Every field of `o` passes `insertToolSchema`. */
  predicate Conforms(o: JsObject, isUrl: string -> bool) {
    ConformsText(o) && ConformsLists(o, isUrl) && ConformsOptional(o, isUrl) && ConformsNested(o, isUrl)
  }

  predicate ConformsText(o: JsObject) {
    && Get(o, "slug").Str? && Get(o, "name").Str? && Get(o, "description").Str?
    && Get(o, "shortDescription").Str? && Get(o, "category").Str? && Get(o, "pricing").Str?
  }

  predicate ConformsLists(o: JsObject, isUrl: string -> bool) {
    && UrlField(Get(o, "websiteUrl"), isUrl)
    && Get(o, "lastUpdated").Str?
    && StringArrayField(Get(o, "features")) && StringArrayField(Get(o, "tags"))
    && (Get(o, "useCases").Undefined? || StringArrayField(Get(o, "useCases")))
    && (Get(o, "screenshots").Undefined? || StringArrayField(Get(o, "screenshots")))
  }

  predicate ConformsOptional(o: JsObject, isUrl: string -> bool) {
    && OptStringField(Get(o, "logoUrl"))
    && OptStringField(Get(o, "badge"))
    && RatingField(Get(o, "rating"))
    && (Get(o, "sourceDetailUrl").Undefined? || UrlField(Get(o, "sourceDetailUrl"), isUrl))
    && OptStringField(Get(o, "developer"))
  }

  predicate ConformsNested(o: JsObject, isUrl: string -> bool) {
    && (Get(o, "documentationUrl").Undefined? || UrlField(Get(o, "documentationUrl"), isUrl))
    && KeyedField(Get(o, "socialLinks"), SOCIAL_KEYS)
    && KeyedField(Get(o, "pricingDetails"), PRICING_KEYS)
    && OptStringField(Get(o, "launchDate"))
  }

  lemma NoIssuesIffConforms(o: JsObject, isUrl: string -> bool)
    ensures Issues(o, isUrl, false) == [] <==> Conforms(o, isUrl)
  {
  }

  // ---------------------------------------------------------------------
  // Extraction of typed values from checked fields.

  function OptString(v: JsVal): Option<string>
    requires OptStringField(v)
  {
    if v.Str? then Some(v.s) else None
  }

  function Strings(v: JsVal): seq<string>
    requires StringArrayField(v)
  {
    seq(|v.items|, k requires 0 <= k < |v.items| => v.items[k].s)
  }

  function OptStrings(v: JsVal): Option<seq<string>>
    requires v.Undefined? || StringArrayField(v)
  {
    if v.Undefined? then None else Some(Strings(v))
  }

  function Socials(v: JsVal): Option<SocialLinks>
    requires KeyedField(v, SOCIAL_KEYS)
  {
    if v.Undefined? then None
    else
      var f := v.fields;
      Some(SocialLinks(OptString(Get(f, "twitter")), OptString(Get(f, "github")),
                       OptString(Get(f, "linkedin")), OptString(Get(f, "discord"))))
  }

  function Pricing(v: JsVal): Option<PricingDetails>
    requires KeyedField(v, PRICING_KEYS)
  {
    if v.Undefined? then None
    else
      var f := v.fields;
      Some(PricingDetails(OptString(Get(f, "free")), OptString(Get(f, "starter")),
                          OptString(Get(f, "pro")), OptString(Get(f, "enterprise"))))
  }

  /** The typed record a conforming object parses to; keys outside the schema are dropped. */
  function Build(o: JsObject, isUrl: string -> bool): ToolData
    requires Conforms(o, isUrl)
  {
    ToolData(
      Get(o, "slug").s, Get(o, "name").s, Get(o, "description").s,
      Get(o, "shortDescription").s, Get(o, "category").s, Get(o, "pricing").s,
      Get(o, "websiteUrl").s,
      OptString(Get(o, "logoUrl")),
      Strings(Get(o, "features")), Strings(Get(o, "tags")),
      OptString(Get(o, "badge")),
      if Get(o, "rating").Num? then Some(Get(o, "rating").x) else None,
      OptString(Get(o, "sourceDetailUrl")),
      OptString(Get(o, "developer")),
      OptString(Get(o, "documentationUrl")),
      Socials(Get(o, "socialLinks")),
      OptStrings(Get(o, "useCases")),
      OptStrings(Get(o, "screenshots")),
      Pricing(Get(o, "pricingDetails")),
      OptString(Get(o, "launchDate")),
      Get(o, "lastUpdated").s)
  }

  /** The keys `insertToolSchema` knows; parsing strips every other key. */
  const INSERT_KEYS: set<string> := {
    "slug", "name", "description", "shortDescription", "category", "pricing",
    "websiteUrl", "logoUrl", "features", "tags", "badge", "rating",
    "sourceDetailUrl", "developer", "documentationUrl", "socialLinks",
    "useCases", "screenshots", "pricingDetails", "launchDate", "lastUpdated"}

  /** The part of `o` the insert schema looks at. */
  function Known(o: JsObject): JsObject {
    map k | k in o && k in INSERT_KEYS :: o[k]
  }

  /** A nested `z.object` strips the keys it does not declare; any other value is passed on as it is. */
  function StripObject(v: JsVal, keys: seq<string>): JsVal {
    if v.Obj? then Obj(map n | n in v.fields && n in keys :: v.fields[n]) else v
  }

  /** The value of schema field `k` once parsed: `socialLinks` and `pricingDetails` lose their unknown keys. */
  function StripField(k: string, v: JsVal): JsVal {
    if k == "socialLinks" then StripObject(v, SOCIAL_KEYS)
    else if k == "pricingDetails" then StripObject(v, PRICING_KEYS)
    else v
  }

  /** `v` and `w` are the same value as far as an object schema over `keys` can see. */
  predicate SameOnKeys(v: JsVal, w: JsVal, keys: seq<string>) {
    if v.Obj? then w.Obj? && forall n :: n in keys ==> (n in v.fields <==> n in w.fields) && Get(v.fields, n) == Get(w.fields, n)
    else v == w
  }

  /** Every key of `p` is declared by the schema, at the top and inside `socialLinks` and `pricingDetails`. */
  predicate SchemaKeysOnly(p: JsObject) {
    && (forall k :: k in p ==> k in INSERT_KEYS)
    && (Get(p, "socialLinks").Obj? ==> forall n :: n in Get(p, "socialLinks").fields ==> n in SOCIAL_KEYS)
    && (Get(p, "pricingDetails").Obj? ==> forall n :: n in Get(p, "pricingDetails").fields ==> n in PRICING_KEYS)
  }

  /** `o1` and `o2` are the same object as far as the insert schema, nested objects included, can see. */
  predicate AgreeOnSchema(o1: JsObject, o2: JsObject) {
    && (forall k :: k in INSERT_KEYS ==> (k in o1 <==> k in o2))
    && SamePlainFields(o1, o2)
    && SameOnKeys(Get(o1, "socialLinks"), Get(o2, "socialLinks"), SOCIAL_KEYS)
    && SameOnKeys(Get(o1, "pricingDetails"), Get(o2, "pricingDetails"), PRICING_KEYS)
  }

  /** Stripping keeps what the nested schema sees, and its check passes or fails as before. */
  lemma StripObjectKeeps(v: JsVal, keys: seq<string>)
    ensures SameOnKeys(v, StripObject(v, keys), keys)
    ensures StripObject(v, keys).Obj? ==> forall n :: n in StripObject(v, keys).fields ==> n in keys
    ensures KeyedField(StripObject(v, keys), keys) == KeyedField(v, keys)
  {
  }

  /**
   * The object `insertToolSchema.partial().parse(o)` returns for a valid body:
   * only the schema's keys, at the top and inside the two nested objects, each
   * with the value the body gave it.
   */
  function ParsedPartial(o: JsObject): (p: JsObject)
    ensures SchemaKeysOnly(p)
    ensures AgreeOnSchema(o, p)
  {
    var p := Project(o, INSERT_KEYS);
    assert Get(p, "socialLinks") == StripObject(Get(o, "socialLinks"), SOCIAL_KEYS);
    assert Get(p, "pricingDetails") == StripObject(Get(o, "pricingDetails"), PRICING_KEYS);
    StripObjectKeeps(Get(o, "socialLinks"), SOCIAL_KEYS);
    StripObjectKeeps(Get(o, "pricingDetails"), PRICING_KEYS);
    p
  }

  /** Stripping forgets exactly what the nested schema cannot see. */
  lemma StripObjectAgrees(v: JsVal, w: JsVal, keys: seq<string>)
    requires SameOnKeys(v, w, keys)
    ensures StripObject(v, keys) == StripObject(w, keys)
  {
    if v.Obj? {
      assert StripObject(v, keys).fields == StripObject(w, keys).fields;
    }
  }

  /** The fields of `o` named in `keys`, each as its schema leaves it. */
  function Project(o: JsObject, keys: set<string>): JsObject {
    map k | k in o && k in keys :: StripField(k, o[k])
  }

  /** Objects that agree on every field named in `keys` project to the same object. */
  lemma ProjectAgrees(o1: JsObject, o2: JsObject, keys: set<string>)
    requires forall k :: k in keys ==> (k in o1 <==> k in o2)
    requires forall k :: k in keys ==> StripField(k, Get(o1, k)) == StripField(k, Get(o2, k))
    ensures Project(o1, keys) == Project(o2, keys)
  {
    assert forall k :: k in Project(o1, keys) ==> Project(o1, keys)[k] == StripField(k, Get(o1, k));
  }

  /** Two bodies the schema cannot tell apart parse to the same partial. */
  lemma ParsedPartialAgrees(o1: JsObject, o2: JsObject)
    requires AgreeOnSchema(o1, o2)
    ensures ParsedPartial(o1) == ParsedPartial(o2)
  {
    forall k | k in INSERT_KEYS
      ensures StripField(k, Get(o1, k)) == StripField(k, Get(o2, k))
    {
      if k == "socialLinks" {
        StripObjectAgrees(Get(o1, k), Get(o2, k), SOCIAL_KEYS);
      } else if k == "pricingDetails" {
        StripObjectAgrees(Get(o1, k), Get(o2, k), PRICING_KEYS);
      }
    }
    ProjectAgrees(o1, o2, INSERT_KEYS);
  }

  /** `o1` and `o2` hold the same value in every schema field other than the two nested objects. */
  predicate SamePlainFields(o1: JsObject, o2: JsObject) {
    && Get(o1, "slug") == Get(o2, "slug")
    && Get(o1, "name") == Get(o2, "name")
    && Get(o1, "description") == Get(o2, "description")
    && Get(o1, "shortDescription") == Get(o2, "shortDescription")
    && Get(o1, "category") == Get(o2, "category")
    && Get(o1, "pricing") == Get(o2, "pricing")
    && Get(o1, "websiteUrl") == Get(o2, "websiteUrl")
    && Get(o1, "logoUrl") == Get(o2, "logoUrl")
    && Get(o1, "features") == Get(o2, "features")
    && Get(o1, "tags") == Get(o2, "tags")
    && Get(o1, "badge") == Get(o2, "badge")
    && Get(o1, "rating") == Get(o2, "rating")
    && Get(o1, "sourceDetailUrl") == Get(o2, "sourceDetailUrl")
    && Get(o1, "developer") == Get(o2, "developer")
    && Get(o1, "documentationUrl") == Get(o2, "documentationUrl")
    && Get(o1, "useCases") == Get(o2, "useCases")
    && Get(o1, "screenshots") == Get(o2, "screenshots")
    && Get(o1, "launchDate") == Get(o2, "launchDate")
    && Get(o1, "lastUpdated") == Get(o2, "lastUpdated")
  }

  lemma IssuesTextByFields(o1: JsObject, o2: JsObject, partial: bool)
    requires SamePlainFields(o1, o2)
    ensures IssuesText(o1, partial) == IssuesText(o2, partial)
  {
  }

  lemma IssuesLinksByFields(o1: JsObject, o2: JsObject, isUrl: string -> bool, partial: bool)
    requires SamePlainFields(o1, o2)
    ensures IssuesLinks(o1, isUrl, partial) == IssuesLinks(o2, isUrl, partial)
  {
  }

  lemma IssuesOptionalByFields(o1: JsObject, o2: JsObject, isUrl: string -> bool, partial: bool)
    requires SamePlainFields(o1, o2)
    requires Get(o1, "socialLinks").Undefined? == Get(o2, "socialLinks").Undefined?
    requires KeyedField(Get(o1, "socialLinks"), SOCIAL_KEYS) == KeyedField(Get(o2, "socialLinks"), SOCIAL_KEYS)
    ensures IssuesOptional(o1, isUrl, partial) == IssuesOptional(o2, isUrl, partial)
  {
  }

  lemma IssuesNestedByFields(o1: JsObject, o2: JsObject, partial: bool)
    requires SamePlainFields(o1, o2)
    requires Get(o1, "pricingDetails").Undefined? == Get(o2, "pricingDetails").Undefined?
    requires KeyedField(Get(o1, "pricingDetails"), PRICING_KEYS) == KeyedField(Get(o2, "pricingDetails"), PRICING_KEYS)
    ensures IssuesNested(o1, partial) == IssuesNested(o2, partial)
  {
  }

  /** The issues of an object depend only on what the schema can see of it. */
  lemma IssuesAgree(o1: JsObject, o2: JsObject, isUrl: string -> bool, partial: bool)
    requires AgreeOnSchema(o1, o2)
    ensures Issues(o1, isUrl, partial) == Issues(o2, isUrl, partial)
  {
    var s1, s2 := Get(o1, "socialLinks"), Get(o2, "socialLinks");
    var p1, p2 := Get(o1, "pricingDetails"), Get(o2, "pricingDetails");
    assert KeyedField(s1, SOCIAL_KEYS) == KeyedField(s2, SOCIAL_KEYS);
    assert KeyedField(p1, PRICING_KEYS) == KeyedField(p2, PRICING_KEYS);
    IssuesTextByFields(o1, o2, partial);
    IssuesLinksByFields(o1, o2, isUrl, partial);
    IssuesOptionalByFields(o1, o2, isUrl, partial);
    IssuesNestedByFields(o1, o2, partial);
  }

  /** Extra top-level keys the schema does not declare leave what it sees unchanged. */
  lemma UnknownKeysAgree(o: JsObject, extra: JsObject)
    requires forall k :: k in extra ==> k !in INSERT_KEYS
    ensures AgreeOnSchema(o, o + extra)
  {
  }

  /** A key `socialLinks` does not declare is dropped, and a declared one is kept. */
  lemma NestedUnknownKeyStripped()
    ensures var body := map["socialLinks" := Obj(map["twitter" := Str("x"), "junk" := Str("y")])];
      ParsedPartial(body) == map["socialLinks" := Obj(map["twitter" := Str("x")])]
  {
    var body := map["socialLinks" := Obj(map["twitter" := Str("x"), "junk" := Str("y")])];
    var inner := map["twitter" := Str("x"), "junk" := Str("y")];
    assert StripObject(Obj(inner), SOCIAL_KEYS).fields == map["twitter" := Str("x")];
    assert ParsedPartial(body) == Project(body, INSERT_KEYS);
  }

  /** `insertToolSchema.parse(o)`: the typed record, or the list of offending fields. */
  function ParseInsertTool(o: JsObject, isUrl: string -> bool): Result<ToolData, seq<string>> {
    var f := Known(o);
    if Conforms(f, isUrl) then Success(Build(f, isUrl)) else Failure(Issues(f, isUrl, false))
  }

  /** `toolSchema.parse(o)`: as `insertToolSchema`, and `id` must be a string as well. */
  function ParseTool(o: JsObject, isUrl: string -> bool): Result<Tool, seq<string>> {
    var f := Known(o);
    var idIssue := if Get(o, "id").Str? then [] else ["id"];
    if idIssue == [] && Conforms(f, isUrl) then Success(Tool(Get(o, "id").s, Build(f, isUrl)))
    else Failure(idIssue + Issues(f, isUrl, false))
  }

  // ---------------------------------------------------------------------
  // The JSON form of a record.

  function OptJs(v: Option<string>): JsVal {
    if v.Some? then Str(v.value) else Undefined
  }

  function OptArrJs(v: Option<seq<string>>): JsVal {
    if v.Some? then StrArr(v.value) else Undefined
  }

  function SocialJs(v: Option<SocialLinks>): JsVal {
    if v.None? then Undefined
    else Obj(map["twitter" := OptJs(v.value.twitter), "github" := OptJs(v.value.github),
                 "linkedin" := OptJs(v.value.linkedin), "discord" := OptJs(v.value.discord)])
  }

  function PricingJs(v: Option<PricingDetails>): JsVal {
    if v.None? then Undefined
    else Obj(map["free" := OptJs(v.value.free), "starter" := OptJs(v.value.starter),
                 "pro" := OptJs(v.value.pro), "enterprise" := OptJs(v.value.enterprise)])
  }

  /** The JSON value of field `k` of `d`. */
  function FieldJs(d: ToolData, k: string): JsVal {
    if k == "slug" then Str(d.slug)
    else if k == "name" then Str(d.name)
    else if k == "description" then Str(d.description)
    else if k == "shortDescription" then Str(d.shortDescription)
    else if k == "category" then Str(d.category)
    else if k == "pricing" then Str(d.pricing)
    else if k == "websiteUrl" then Str(d.websiteUrl)
    else if k == "logoUrl" then OptJs(d.logoUrl)
    else if k == "features" then StrArr(d.features)
    else if k == "tags" then StrArr(d.tags)
    else if k == "badge" then OptJs(d.badge)
    else if k == "rating" then (if d.rating.Some? then Num(d.rating.value) else Undefined)
    else if k == "sourceDetailUrl" then OptJs(d.sourceDetailUrl)
    else if k == "developer" then OptJs(d.developer)
    else if k == "documentationUrl" then OptJs(d.documentationUrl)
    else if k == "socialLinks" then SocialJs(d.socialLinks)
    else if k == "useCases" then OptArrJs(d.useCases)
    else if k == "screenshots" then OptArrJs(d.screenshots)
    else if k == "pricingDetails" then PricingJs(d.pricingDetails)
    else if k == "launchDate" then OptJs(d.launchDate)
    else if k == "lastUpdated" then Str(d.lastUpdated)
    else Undefined
  }

  /** The object a client sends for `d` (absent optional fields are `undefined`). */
  function ToJs(d: ToolData): JsObject {
    map k | k in INSERT_KEYS :: FieldJs(d, k)
  }

  lemma StringsStrArr(xs: seq<string>)
    ensures Strings(StrArr(xs)) == xs
  {
  }

  /** `o` holds the JSON value of every field of `d`, and nothing else. */
  predicate Encodes(o: JsObject, d: ToolData) {
    && Known(o) == o
    && EncodesText(o, d) && EncodesLists(o, d) && EncodesOptional(o, d) && EncodesNested(o, d)
  }

  predicate EncodesText(o: JsObject, d: ToolData) {
    && Get(o, "slug") == Str(d.slug) && Get(o, "name") == Str(d.name)
    && Get(o, "description") == Str(d.description)
    && Get(o, "shortDescription") == Str(d.shortDescription)
    && Get(o, "category") == Str(d.category) && Get(o, "pricing") == Str(d.pricing)
  }

  predicate EncodesLists(o: JsObject, d: ToolData) {
    && Get(o, "websiteUrl") == Str(d.websiteUrl)
    && Get(o, "lastUpdated") == Str(d.lastUpdated)
    && Get(o, "features") == StrArr(d.features) && Get(o, "tags") == StrArr(d.tags)
    && Get(o, "useCases") == OptArrJs(d.useCases)
    && Get(o, "screenshots") == OptArrJs(d.screenshots)
  }

  predicate EncodesOptional(o: JsObject, d: ToolData) {
    && Get(o, "logoUrl") == OptJs(d.logoUrl)
    && Get(o, "badge") == OptJs(d.badge)
    && Get(o, "rating") == (if d.rating.Some? then Num(d.rating.value) else Undefined)
    && Get(o, "sourceDetailUrl") == OptJs(d.sourceDetailUrl)
    && Get(o, "developer") == OptJs(d.developer)
  }

  predicate EncodesNested(o: JsObject, d: ToolData) {
    && Get(o, "documentationUrl") == OptJs(d.documentationUrl)
    && Get(o, "socialLinks") == SocialJs(d.socialLinks)
    && Get(o, "pricingDetails") == PricingJs(d.pricingDetails)
    && Get(o, "launchDate") == OptJs(d.launchDate)
  }

  lemma ToJsText(d: ToolData)
    ensures EncodesText(ToJs(d), d)
  {
  }

  lemma ToJsLists(d: ToolData)
    ensures EncodesLists(ToJs(d), d)
  {
    ToJsAt(d, "websiteUrl");
    ToJsAt(d, "lastUpdated");
    ToJsAt(d, "features");
    ToJsAt(d, "tags");
    ToJsAt(d, "useCases");
    ToJsAt(d, "screenshots");
  }

  /** What `ToJs` holds under one key. */
  lemma ToJsAt(d: ToolData, k: string)
    requires k in INSERT_KEYS
    ensures Get(ToJs(d), k) == FieldJs(d, k)
  {
  }

  lemma ToJsOptional(d: ToolData)
    ensures EncodesOptional(ToJs(d), d)
  {
  }

  lemma ToJsNested(d: ToolData)
    ensures EncodesNested(ToJs(d), d)
  {
  }

  lemma ToJsEncodes(d: ToolData)
    ensures Encodes(ToJs(d), d)
  {
    ToJsText(d);
    ToJsLists(d);
    ToJsOptional(d);
    ToJsNested(d);
  }

  lemma SocialRoundTrip(v: Option<SocialLinks>)
    ensures KeyedField(SocialJs(v), SOCIAL_KEYS) && Socials(SocialJs(v)) == v
  {
  }

  lemma PricingRoundTrip(v: Option<PricingDetails>)
    ensures KeyedField(PricingJs(v), PRICING_KEYS) && Pricing(PricingJs(v)) == v
  {
  }

  lemma OptArrRoundTrip(v: Option<seq<string>>)
    ensures (OptArrJs(v).Undefined? || StringArrayField(OptArrJs(v))) && OptStrings(OptArrJs(v)) == v
  {
    if v.Some? {
      StringsStrArr(v.value);
    }
  }

  /** An object encoding `d` passes the schema exactly when `d` is valid. */
  lemma ConformsEncoded(o: JsObject, d: ToolData, isUrl: string -> bool)
    requires EncodesText(o, d) && EncodesLists(o, d) && EncodesOptional(o, d) && EncodesNested(o, d)
    ensures Conforms(o, isUrl) <==> ValidData(d, isUrl)
  {
    assert ConformsText(o);
    ListsEncoded(o, d, isUrl);
    OptionalEncoded(o, d, isUrl);
    NestedEncoded(o, d, isUrl);
  }

  lemma ListsEncoded(o: JsObject, d: ToolData, isUrl: string -> bool)
    requires EncodesLists(o, d)
    ensures ConformsLists(o, isUrl) <==> isUrl(d.websiteUrl)
  {
    OptArrRoundTrip(d.useCases);
    OptArrRoundTrip(d.screenshots);
  }

  lemma OptionalEncoded(o: JsObject, d: ToolData, isUrl: string -> bool)
    requires EncodesOptional(o, d)
    ensures ConformsOptional(o, isUrl) <==>
      (d.rating.Some? ==> 0.0 <= d.rating.value <= 5.0) &&
      (d.sourceDetailUrl.Some? ==> isUrl(d.sourceDetailUrl.value))
  {
  }

  lemma NestedEncoded(o: JsObject, d: ToolData, isUrl: string -> bool)
    requires EncodesNested(o, d)
    ensures ConformsNested(o, isUrl) <==> (d.documentationUrl.Some? ==> isUrl(d.documentationUrl.value))
  {
    SocialRoundTrip(d.socialLinks);
    PricingRoundTrip(d.pricingDetails);
  }

  /** An object encoding `d` is built back into `d`. */
  lemma BuildEncoded(o: JsObject, d: ToolData, isUrl: string -> bool)
    requires EncodesText(o, d) && EncodesLists(o, d) && EncodesOptional(o, d) && EncodesNested(o, d)
    requires Conforms(o, isUrl)
    ensures Build(o, isUrl) == d
  {
    SocialRoundTrip(d.socialLinks);
    PricingRoundTrip(d.pricingDetails);
    OptArrRoundTrip(d.useCases);
    OptArrRoundTrip(d.screenshots);
    StringsStrArr(d.features);
    StringsStrArr(d.tags);
  }

  /** Any object encoding `d` parses back to `d` exactly when `d` is valid. */
  lemma ParseEncoded(o: JsObject, d: ToolData, isUrl: string -> bool)
    requires Encodes(o, d)
    ensures ParseInsertTool(o, isUrl).Success? <==> ValidData(d, isUrl)
    ensures ValidData(d, isUrl) ==> ParseInsertTool(o, isUrl) == Success(d)
  {
    ConformsEncoded(o, d, isUrl);
    if ValidData(d, isUrl) {
      BuildEncoded(o, d, isUrl);
    }
  }

  /**
   * The schema accepts the JSON form of a record exactly when the record is
   * valid, and then parses it back to the same record.
   */
  lemma ParseToJs(d: ToolData, isUrl: string -> bool)
    ensures ParseInsertTool(ToJs(d), isUrl).Success? <==> ValidData(d, isUrl)
    ensures ValidData(d, isUrl) ==> ParseInsertTool(ToJs(d), isUrl) == Success(d)
  {
    ToJsEncodes(d);
    ParseEncoded(ToJs(d), d, isUrl);
  }

  /** The insert schema ignores whatever `o.id` holds. */
  lemma InsertIgnoresId(o: JsObject, v: JsVal, isUrl: string -> bool)
    ensures ParseInsertTool(o["id" := v], isUrl) == ParseInsertTool(o, isUrl)
  {
    assert Known(o["id" := v]) == Known(o);
  }

  /**
   * A tool is an insertable record plus a string `id`: the tool schema accepts
   * `o` exactly when `o.id` is a string and the insert schema accepts `o`.
   */
  lemma ToolIsInsertPlusId(o: JsObject, isUrl: string -> bool)
    ensures ParseTool(o, isUrl).Success? <==>
      Get(o, "id").Str? && ParseInsertTool(o, isUrl).Success?
    ensures ParseTool(o, isUrl).Success? ==>
      ParseTool(o, isUrl).value == Tool(Get(o, "id").s, ParseInsertTool(o, isUrl).value)
  {
  }


  // ---------------------------------------------------------------------
  // Partial records: `Partial<InsertTool>` as handed to `updateTool`.

  /**
   * One optional field of a partial record: the key is absent (`Keep`), present
   * with `undefined`/`null` (`Clear`), or present with a value (`Put`).
   */
  datatype Update<T> = Keep | Clear | Put(value: T)

  /**
   * A partial record. Required fields are absent or given; optional fields may
   * also be explicitly nullish. `features` and `tags` cannot be explicitly
   * nullish because a stored tool always has them.
   */
  datatype Patch = Patch(
    slug: Option<string>,
    name: Option<string>,
    description: Option<string>,
    shortDescription: Option<string>,
    category: Option<string>,
    pricing: Option<string>,
    websiteUrl: Option<string>,
    logoUrl: Update<string>,
    features: Option<seq<string>>,
    tags: Option<seq<string>>,
    badge: Update<string>,
    rating: Update<real>,
    sourceDetailUrl: Update<string>,
    developer: Update<string>,
    documentationUrl: Update<string>,
    socialLinks: Update<SocialLinks>,
    useCases: Update<seq<string>>,
    screenshots: Update<seq<string>>,
    pricingDetails: Update<PricingDetails>,
    launchDate: Update<string>,
    lastUpdated: Option<string>)

  /** The partial record with no keys at all. */
  const EMPTY_PATCH: Patch := Patch(
    None, None, None, None, None, None, None, Keep, None, None, Keep, Keep,
    Keep, Keep, Keep, Keep, Keep, Keep, Keep, Keep, None)

  /** The value a field holds once read: `Put` gives it, an absent or nullish key gives none. */
  function Val<T>(u: Update<T>): Option<T> {
    if u.Put? then Some(u.value) else None
  }

  function AsUpdate<T>(v: Option<T>): Update<T> {
    if v.Some? then Put(v.value) else Keep
  }

  /** A complete record seen as a partial record in which every present field is given. */
  function FullPatch(d: ToolData): Patch {
    Patch(
      Some(d.slug), Some(d.name), Some(d.description), Some(d.shortDescription),
      Some(d.category), Some(d.pricing), Some(d.websiteUrl), AsUpdate(d.logoUrl),
      Some(d.features), Some(d.tags), AsUpdate(d.badge), AsUpdate(d.rating),
      AsUpdate(d.sourceDetailUrl), AsUpdate(d.developer), AsUpdate(d.documentationUrl),
      AsUpdate(d.socialLinks), AsUpdate(d.useCases), AsUpdate(d.screenshots),
      AsUpdate(d.pricingDetails), AsUpdate(d.launchDate), Some(d.lastUpdated))
  }

  /**
   * The complete record a partial record describes, when every required field
   * is present; optional fields that are absent or nullish are left out.
   */
  function AsRecord(p: Patch): Option<ToolData> {
    if p.slug.Some? && p.name.Some? && p.description.Some? && p.shortDescription.Some?
       && p.category.Some? && p.pricing.Some? && p.websiteUrl.Some? && p.features.Some?
       && p.tags.Some? && p.lastUpdated.Some?
    then
      Some(ToolData(
        p.slug.value, p.name.value, p.description.value, p.shortDescription.value,
        p.category.value, p.pricing.value, p.websiteUrl.value, Val(p.logoUrl),
        p.features.value, p.tags.value, Val(p.badge), Val(p.rating), Val(p.sourceDetailUrl),
        Val(p.developer), Val(p.documentationUrl), Val(p.socialLinks), Val(p.useCases),
        Val(p.screenshots), Val(p.pricingDetails), Val(p.launchDate), p.lastUpdated.value))
    else None
  }

  /** A complete record survives the trip through a partial record. */
  lemma AsRecordFull(d: ToolData)
    ensures AsRecord(FullPatch(d)) == Some(d)
  {
  }
}
