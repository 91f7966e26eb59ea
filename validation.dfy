/**
 * The post schema of lib/validations/zod.ts: per-field checks, defaults, and the
 * all-or-nothing parse that either yields a fully defined post or the list of issues
 * in schema order (the first of which is what the actions report).
 */
module Validation {
  import opened Wrappers

  /** A raw form value: missing (`undefined`), text, a checkbox boolean, or a `Date` (milliseconds). */
  datatype Raw = Absent | Str(s: string) | Bool(b: bool) | Date(ms: int)

  /** Text, or nothing at all: what a string field with a default accepts. */
  predicate TextOrAbsent(v: Raw) {
    v.Absent? || v.Str?
  }

  /** A boolean, or nothing at all: what a boolean field with a default accepts. */
  predicate FlagOrAbsent(v: Raw) {
    v.Absent? || v.Bool?
  }

  /** The text given, or `d` when none is. */
  function TextOr(v: Raw, d: string): string {
    if v.Str? then v.s else d
  }

  /** The boolean given, or `d` when none is. */
  function FlagOr(v: Raw, d: bool): bool {
    if v.Bool? then v.b else d
  }

  /** JavaScript truthiness of a raw value, which decides `a || b`. */
  predicate Truthy(v: Raw) {
    match v
    case Absent => false
    case Str(s) => s != ""
    case Bool(b) => b
    case Date(_) => true
  }

  /** `a || b` on raw values. */
  function Or(a: Raw, b: Raw): (r: Raw)
    ensures Truthy(a) ==> r == a
    ensures !Truthy(a) ==> r == b
  {
    if Truthy(a) then a else b
  }

  /** The seven categories of `BLOG_CATEGORIES`, the enum of record. */
  const BlogCategories: seq<string> := [
    "Sustainability",
    "Organic Living",
    "Urban Leaf Tips",
    "Health Benefits",
    "Recipes",
    "Sourcing Stories",
    "Nutritional Science"
  ]

  datatype Seo = Seo(metaTitle: string, metaDescription: string, keywords: seq<string>, ogImage: string, canonical: string)

  datatype IndexControl = IndexControl(isSearchable: bool, isFeatured: bool)

  /** `publishedAt` after the schema: a date (milliseconds) or the text it was given. */
  datatype Stamp = Instant(ms: int) | DateText(text: string)

  /** Every field of a post except `publishedAt`. */
  datatype Fields = Fields(
    title: string,
    slug: string,
    category: string,
    author: string,
    coverImage: string,
    excerpt: string,
    content: string,
    isPublished: bool,
    seo: Seo,
    indexControl: IndexControl)

  /** The schema's output: a record with every field defined. */
  datatype BlogPost = BlogPost(fields: Fields, publishedAt: Stamp)

  /** The schema's input, restricted to the keys the schema reads (it strips every other key). */
  datatype SeoCandidate = SeoCandidate(metaTitle: Raw, metaDescription: Raw, keywords: Option<seq<string>>, ogImage: Raw, canonical: Raw)

  datatype IndexCandidate = IndexCandidate(isSearchable: Raw, isFeatured: Raw)

  datatype Candidate = Candidate(
    title: Raw,
    slug: Raw,
    category: Raw,
    author: Raw,
    coverImage: Raw,
    excerpt: Raw,
    content: Raw,
    isPublished: Raw,
    seo: Option<SeoCandidate>,
    indexControl: Option<IndexCandidate>,
    publishedAt: Raw)

  /** One entry of a ZodError: where and what. */
  datatype Issue = Issue(path: seq<string>, message: string)

  const DefaultAuthor := "NaturaPick Team"
  const DefaultSeo := Seo("", "", [], "", "")
  const DefaultIndexControl := IndexControl(true, false)

  const RequiredMessage := "Required"
  /** Zod's `invalid_type` message for a value of the wrong kind. */
  function InvalidType(expected: string, v: Raw): string {
    "Expected " + expected + ", received " +
      match v
      case Absent => "undefined"
      case Str(_) => "string"
      case Bool(_) => "boolean"
      case Date(_) => "date"
  }
  const InvalidInputMessage := "Invalid input"
  const CategoryMessage := "Please select a valid category"

  /** A `z.string()` with its optional `min`, `max` and `default`. */
  datatype StringRule = StringRule(minLen: nat, minMessage: string, maxLen: Option<nat>, maxMessage: string, default: Option<string>)

  const TitleRule := StringRule(5, "Title must be at least 5 characters", Some(100), "String must contain at most 100 character(s)", None)
  const SlugRule := StringRule(1, "Slug is required", None, "", None)
  const AuthorRule := StringRule(0, "", None, "", Some(DefaultAuthor))
  const OptionalTextRule := StringRule(0, "", None, "", Some(""))
  const ExcerptRule := StringRule(0, "", Some(200), "String must contain at most 200 character(s)", Some(""))
  const ContentRule := StringRule(20, "Content body is too short", None, "", None)
  const MetaTitleRule := StringRule(0, "", Some(70), "String must contain at most 70 character(s)", Some(""))
  const MetaDescriptionRule := StringRule(0, "", Some(160), "String must contain at most 160 character(s)", Some(""))

  /** A string field: its default when absent, its text when within bounds, else a message. */
  function CheckString(v: Raw, rule: StringRule): (r: Result<string, string>)
    ensures r.Success? <==>
      || (v.Absent? && rule.default.Some?)
      || (v.Str? && rule.minLen <= |v.s| && (rule.maxLen.Some? ==> |v.s| <= rule.maxLen.value))
    ensures r.Success? && v.Str? ==> r.value == v.s
    ensures r.Success? && v.Absent? ==> r.value == rule.default.value
    ensures r.Failure? && v.Str? && |v.s| < rule.minLen ==> r.error == rule.minMessage
    ensures r.Failure? && v.Absent? ==> r.error == RequiredMessage
    ensures v.Bool? || v.Date? ==> r == Failure(InvalidType("string", v))
  {
    match v
    case Absent => if rule.default.Some? then Success(rule.default.value) else Failure(RequiredMessage)
    case Bool(_) => Failure(InvalidType("string", v))
    case Date(_) => Failure(InvalidType("string", v))
    case Str(s) =>
      if |s| < rule.minLen then Failure(rule.minMessage)
      else if rule.maxLen.Some? && |s| > rule.maxLen.value then Failure(rule.maxMessage)
      else Success(s)
  }

  /** `z.enum(BLOG_CATEGORIES, { message })`: every failure carries the one custom message. */
  function CheckCategory(v: Raw): (r: Result<string, string>)
    ensures r.Success? <==> v.Str? && v.s in BlogCategories
    ensures r.Success? ==> v == Str(r.value)
    ensures r.Failure? ==> r.error == CategoryMessage
  {
    if v.Str? && v.s in BlogCategories then Success(v.s) else Failure(CategoryMessage)
  }

  /** `z.boolean().default(d)`. */
  function CheckBool(v: Raw, default: bool): (r: Result<bool, string>)
    ensures r.Success? <==> FlagOrAbsent(v)
    ensures r.Success? ==> r.value == FlagOr(v, default)
    ensures r.Failure? ==> r.error == InvalidType("boolean", v)
  {
    match v
    case Absent => Success(default)
    case Bool(b) => Success(b)
    case Str(_) => Failure(InvalidType("boolean", v))
    case Date(_) => Failure(InvalidType("boolean", v))
  }

  /** `z.union([z.date(), z.string()]).optional().default(() => new Date())`, with `now` for the clock. */
  function CheckPublishedAt(v: Raw, now: int): (r: Result<Stamp, string>)
    ensures r.Success? <==> !v.Bool?
    ensures v.Absent? ==> r == Success(Instant(now))
    ensures v.Date? ==> r == Success(Instant(v.ms))
    ensures v.Str? ==> r == Success(DateText(v.s))
    ensures v.Bool? ==> r == Failure(InvalidInputMessage)
  {
    match v
    case Absent => Success(Instant(now))
    case Date(ms) => Success(Instant(ms))
    case Str(s) => Success(DateText(s))
    case Bool(_) => Failure(InvalidInputMessage)
  }

  /** The issue a field contributes: none, or one at its path. */
  function At<T>(path: seq<string>, r: Result<T, string>): (issues: seq<Issue>)
    ensures r.Success? <==> issues == []
    ensures r.Failure? ==> issues == [Issue(path, r.error)]
  {
    if r.Failure? then [Issue(path, r.error)] else []
  }

  /** The nested `seo` object: a missing one becomes the default record wholesale. */
  function ParseSeo(o: Option<SeoCandidate>): (r: Result<Seo, seq<Issue>>)
    ensures r.Success? <==> (o.Some? ==> SeoAdmissible(o.value))
    ensures o.None? ==> r == Success(DefaultSeo)
    ensures r.Success? && o.Some? ==>
      && |r.value.metaTitle| <= 70 && |r.value.metaDescription| <= 160
      && r.value == Seo(TextOr(o.value.metaTitle, ""), TextOr(o.value.metaDescription, ""),
                        o.value.keywords.GetOr([]), TextOr(o.value.ogImage, ""), TextOr(o.value.canonical, ""))
    ensures r.Failure? ==> r.error != []
  {
    match o
    case None => Success(DefaultSeo)
    case Some(sc) =>
      var metaTitle := CheckString(sc.metaTitle, MetaTitleRule);
      var metaDescription := CheckString(sc.metaDescription, MetaDescriptionRule);
      var ogImage := CheckString(sc.ogImage, OptionalTextRule);
      var canonical := CheckString(sc.canonical, OptionalTextRule);
      if metaTitle.Success? && metaDescription.Success? && ogImage.Success? && canonical.Success? then
        Success(Seo(metaTitle.value, metaDescription.value, sc.keywords.GetOr([]), ogImage.value, canonical.value))
      else
        Failure(
          At(["seo", "metaTitle"], metaTitle) + At(["seo", "metaDescription"], metaDescription)
          + At(["seo", "ogImage"], ogImage) + At(["seo", "canonical"], canonical))
  }

  /** The nested `indexControl` object: a missing one becomes `{isSearchable: true, isFeatured: false}`. */
  function ParseIndexControl(o: Option<IndexCandidate>): (r: Result<IndexControl, seq<Issue>>)
    ensures r.Success? <==> (o.Some? ==> IndexAdmissible(o.value))
    ensures o.None? ==> r == Success(DefaultIndexControl)
    ensures r.Success? && o.Some? ==>
      r.value == IndexControl(FlagOr(o.value.isSearchable, true), FlagOr(o.value.isFeatured, false))
    ensures r.Failure? ==> r.error != []
  {
    match o
    case None => Success(DefaultIndexControl)
    case Some(ic) =>
      var isSearchable := CheckBool(ic.isSearchable, true);
      var isFeatured := CheckBool(ic.isFeatured, false);
      if isSearchable.Success? && isFeatured.Success? then Success(IndexControl(isSearchable.value, isFeatured.value))
      else Failure(At(["indexControl", "isSearchable"], isSearchable) + At(["indexControl", "isFeatured"], isFeatured))
  }

  function Issues<T>(r: Result<T, seq<Issue>>): seq<Issue> {
    if r.Failure? then r.error else []
  }

  /** What the schema accepts, field by field, stated on the input. */
  predicate Admissible(c: Candidate) {
    && c.title.Str? && 5 <= |c.title.s| <= 100
    && c.slug.Str? && c.slug.s != ""
    && c.category.Str? && c.category.s in BlogCategories
    && TextOrAbsent(c.author)
    && TextOrAbsent(c.coverImage)
    && TextOrAbsent(c.excerpt) && (c.excerpt.Str? ==> |c.excerpt.s| <= 200)
    && c.content.Str? && |c.content.s| >= 20
    && FlagOrAbsent(c.isPublished)
    && (c.seo.Some? ==> SeoAdmissible(c.seo.value))
    && (c.indexControl.Some? ==> IndexAdmissible(c.indexControl.value))
    && !c.publishedAt.Bool?
  }

  /** What the schema accepts in a given `seo` object. */
  predicate SeoAdmissible(sc: SeoCandidate) {
    && TextOrAbsent(sc.metaTitle) && (sc.metaTitle.Str? ==> |sc.metaTitle.s| <= 70)
    && TextOrAbsent(sc.metaDescription) && (sc.metaDescription.Str? ==> |sc.metaDescription.s| <= 160)
    && TextOrAbsent(sc.ogImage) && TextOrAbsent(sc.canonical)
  }

  /** What the schema accepts in a given `indexControl` object. */
  predicate IndexAdmissible(ic: IndexCandidate) {
    FlagOrAbsent(ic.isSearchable) && FlagOrAbsent(ic.isFeatured)
  }

  /** The constraints every parsed post satisfies, stated on the output. */
  predicate Conforms(f: Fields) {
    && 5 <= |f.title| <= 100
    && f.slug != ""
    && f.category in BlogCategories
    && |f.excerpt| <= 200
    && |f.content| >= 20
    && |f.seo.metaTitle| <= 70
    && |f.seo.metaDescription| <= 160
  }

  /**
   * `BlogSchema.parse`: all or nothing. It succeeds exactly on admissible input, and then the
   * post satisfies every constraint; otherwise it reports at least one issue.
   */
  function Parse(c: Candidate, now: int): (r: Result<BlogPost, seq<Issue>>)
    ensures r.Success? <==> Admissible(c)
    ensures r.Success? ==> Conforms(r.value.fields)
    ensures r.Success? && c.seo.Some? ==> r.value.fields.seo.keywords == c.seo.value.keywords.GetOr([])
    ensures r.Failure? ==> r.error != []
  {
    var title := CheckString(c.title, TitleRule);
    var slug := CheckString(c.slug, SlugRule);
    var category := CheckCategory(c.category);
    var author := CheckString(c.author, AuthorRule);
    var coverImage := CheckString(c.coverImage, OptionalTextRule);
    var excerpt := CheckString(c.excerpt, ExcerptRule);
    var content := CheckString(c.content, ContentRule);
    var isPublished := CheckBool(c.isPublished, false);
    var seo := ParseSeo(c.seo);
    var indexControl := ParseIndexControl(c.indexControl);
    var publishedAt := CheckPublishedAt(c.publishedAt, now);
    if && title.Success? && slug.Success? && category.Success? && author.Success?
       && coverImage.Success? && excerpt.Success? && content.Success? && isPublished.Success?
       && seo.Success? && indexControl.Success? && publishedAt.Success?
    then
      Success(BlogPost(
        Fields(title.value, slug.value, category.value, author.value, coverImage.value, excerpt.value,
               content.value, isPublished.value, seo.value, indexControl.value),
        publishedAt.value))
    else
      Failure(
        At(["title"], title) + At(["slug"], slug) + At(["category"], category) + At(["author"], author)
        + At(["coverImage"], coverImage) + At(["excerpt"], excerpt) + At(["content"], content)
        + At(["isPublished"], isPublished) + Issues(seo) + Issues(indexControl) + At(["publishedAt"], publishedAt))
  }

  /** Absent optional fields take their defaults: author, cover image, excerpt, draft status, keywords. */
  lemma DefaultsFilled(c: Candidate, now: int)
    requires Parse(c, now).Success?
    ensures var f := Parse(c, now).value.fields;
      && (c.author.Absent? ==> f.author == DefaultAuthor)
      && (c.coverImage.Absent? ==> f.coverImage == "")
      && (c.excerpt.Absent? ==> f.excerpt == "")
      && (c.isPublished.Absent? ==> !f.isPublished)
      && (c.seo.Some? && c.seo.value.keywords.None? ==> f.seo.keywords == [])
      && (c.seo.Some? && c.seo.value.metaTitle.Absent? ==> f.seo.metaTitle == "")
      && (c.seo.Some? && c.seo.value.metaDescription.Absent? ==> f.seo.metaDescription == "")
      && (c.seo.Some? && c.seo.value.ogImage.Absent? ==> f.seo.ogImage == "")
      && (c.seo.Some? && c.seo.value.canonical.Absent? ==> f.seo.canonical == "")
      && (c.seo.None? ==> f.seo == DefaultSeo)
      && (c.indexControl.None? ==> f.indexControl == IndexControl(true, false))
      && (c.indexControl.Some? && c.indexControl.value.isSearchable.Absent? ==> f.indexControl.isSearchable)
      && (c.indexControl.Some? && c.indexControl.value.isFeatured.Absent? ==> !f.indexControl.isFeatured)
      && (c.publishedAt.Absent? ==> Parse(c, now).value.publishedAt == Instant(now))
  {
  }

  /** Given values survive the parse unchanged, nested ones and the date included. */
  lemma GivenValuesKept(c: Candidate, now: int)
    requires Parse(c, now).Success?
    ensures var f := Parse(c, now).value.fields;
      && c.title == Str(f.title) && c.slug == Str(f.slug) && c.category == Str(f.category)
      && c.content == Str(f.content)
      && (c.author.Str? ==> f.author == c.author.s)
      && (c.coverImage.Str? ==> f.coverImage == c.coverImage.s)
      && (c.excerpt.Str? ==> f.excerpt == c.excerpt.s)
      && (c.isPublished.Bool? ==> f.isPublished == c.isPublished.b)
      && (c.seo.Some? && c.seo.value.metaTitle.Str? ==> f.seo.metaTitle == c.seo.value.metaTitle.s)
      && (c.seo.Some? && c.seo.value.metaDescription.Str? ==> f.seo.metaDescription == c.seo.value.metaDescription.s)
      && (c.seo.Some? && c.seo.value.keywords.Some? ==> f.seo.keywords == c.seo.value.keywords.value)
      && (c.seo.Some? && c.seo.value.ogImage.Str? ==> f.seo.ogImage == c.seo.value.ogImage.s)
      && (c.seo.Some? && c.seo.value.canonical.Str? ==> f.seo.canonical == c.seo.value.canonical.s)
      && (c.indexControl.Some? && c.indexControl.value.isSearchable.Bool? ==>
            f.indexControl.isSearchable == c.indexControl.value.isSearchable.b)
      && (c.indexControl.Some? && c.indexControl.value.isFeatured.Bool? ==>
            f.indexControl.isFeatured == c.indexControl.value.isFeatured.b)
      && (c.publishedAt.Str? ==> Parse(c, now).value.publishedAt == DateText(c.publishedAt.s))
      && (c.publishedAt.Date? ==> Parse(c, now).value.publishedAt == Instant(c.publishedAt.ms))
  {
  }

  /**
   * A complete input (every field given) that the schema accepts comes out as the post holding
   * exactly the given values, dated by the given date, the given date text, or else `now`.
   */
  lemma ParseKeepsComplete(c: Candidate, now: int)
    requires Admissible(c)
    requires c.author.Str? && c.coverImage.Str? && c.excerpt.Str? && c.isPublished.Bool?
    requires c.seo.Some? && c.seo.value.metaTitle.Str? && c.seo.value.metaDescription.Str?
    requires c.seo.value.ogImage.Str? && c.seo.value.canonical.Str? && c.seo.value.keywords.Some?
    requires c.indexControl.Some? && c.indexControl.value.isSearchable.Bool? && c.indexControl.value.isFeatured.Bool?
    ensures Parse(c, now) == Success(BlogPost(
      Fields(c.title.s, c.slug.s, c.category.s, c.author.s, c.coverImage.s, c.excerpt.s, c.content.s, c.isPublished.b,
        Seo(c.seo.value.metaTitle.s, c.seo.value.metaDescription.s, c.seo.value.keywords.value,
            c.seo.value.ogImage.s, c.seo.value.canonical.s),
        IndexControl(c.indexControl.value.isSearchable.b, c.indexControl.value.isFeatured.b)),
      match c.publishedAt
      case Date(ms) => Instant(ms)
      case Str(text) => DateText(text)
      case _ => Instant(now)))
  {
    var sc := c.seo.value;
    assert ParseSeo(c.seo) == Success(Seo(sc.metaTitle.s, sc.metaDescription.s, sc.keywords.value, sc.ogImage.s, sc.canonical.s));
  }

  /** With title and slug acceptable, a category outside the seven is the first issue reported. */
  lemma CategoryFirstIssue(c: Candidate, now: int)
    requires c.title.Str? && 5 <= |c.title.s| <= 100 && c.slug.Str? && c.slug.s != ""
    requires !(c.category.Str? && c.category.s in BlogCategories)
    ensures Parse(c, now).Failure?
    ensures Parse(c, now).error[0] == Issue(["category"], CategoryMessage)
  {
  }

  /** With the title acceptable, a slug that is missing or empty is the first issue: "Required" or "Slug is required". */
  lemma SlugFirstIssue(c: Candidate, now: int)
    requires c.title.Str? && 5 <= |c.title.s| <= 100
    requires c.slug == Absent || c.slug == Str("")
    ensures Parse(c, now).Failure?
    ensures Parse(c, now).error[0] == Issue(["slug"], if c.slug.Absent? then RequiredMessage else "Slug is required")
  {
  }

  /** A title shorter than five characters is the first issue, with its own message. */
  lemma ShortTitleFirstIssue(c: Candidate, now: int)
    requires c.title.Str? && |c.title.s| < 5
    ensures Parse(c, now).Failure?
    ensures Parse(c, now).error[0] == Issue(["title"], "Title must be at least 5 characters")
  {
  }

  /** With the fields before it acceptable, content under twenty characters is reported as too short. */
  lemma ShortContentFirstIssue(c: Candidate, now: int)
    requires c.title.Str? && 5 <= |c.title.s| <= 100 && c.slug.Str? && c.slug.s != ""
    requires c.category.Str? && c.category.s in BlogCategories
    requires TextOrAbsent(c.author) && TextOrAbsent(c.coverImage) && TextOrAbsent(c.excerpt)
    requires c.excerpt.Str? ==> |c.excerpt.s| <= 200
    requires c.content.Str? && |c.content.s| < 20
    ensures Parse(c, now).Failure?
    ensures Parse(c, now).error[0] == Issue(["content"], "Content body is too short")
  {
  }
}
