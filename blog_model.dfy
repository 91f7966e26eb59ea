/**
 * The persisted-document layer of models/Blog.ts: the setters that run on every write
 * (trimmed title, lower-cased slug, trimmed meta title), the validators that run when a
 * document is created, the unique index on `slug`, and the timestamps.
 */
module BlogModel {
  import opened Wrappers
  import opened Text
  import opened Validation

  /** Document identifiers are opaque; the model numbers them. */
  type Id = nat

  /** A stored document: the fields, the cast `publishedAt`, and the two timestamps. */
  datatype Doc = Doc(id: Id, fields: Fields, publishedAt: int, createdAt: int, updatedAt: int)

  /** One failed path of a Mongoose validation. */
  datatype PathError = PathError(path: string, message: string)

  /** The shape every stored document has once setters and the schema have run. */
  predicate StoredShape(f: Fields) {
    && f.slug != "" && IsLower(f.slug)
    && IsTrimmed(f.title)
    && IsTrimmed(f.seo.metaTitle) && |f.seo.metaTitle| <= 70
    && f.category in BlogCategories
    && |f.excerpt| <= 200
    && |f.content| >= 20
    && |f.seo.metaDescription| <= 160
  }

  /** The schema's setters: `title` trimmed, `slug` lower-cased, `seo.metaTitle` trimmed; nothing else changes. */
  function ApplySetters(f: Fields): (g: Fields)
    ensures g.title == Trim(f.title) && g.slug == Lower(f.slug) && g.seo.metaTitle == Trim(f.seo.metaTitle)
    ensures g.(title := f.title, slug := f.slug, seo := g.seo.(metaTitle := f.seo.metaTitle)) == f
    ensures Conforms(f) ==> StoredShape(g)
  {
    LowerIsLower(f.slug);
    f.(title := Trim(f.title), slug := Lower(f.slug), seo := f.seo.(metaTitle := Trim(f.seo.metaTitle)))
  }

  /** On a document that already has the stored shape the setters change nothing. */
  lemma SettersIdempotent(f: Fields)
    requires StoredShape(f)
    ensures ApplySetters(f) == f
  {
    TrimmedIsFixpoint(f.title);
    TrimmedIsFixpoint(f.seo.metaTitle);
    LowerOfLower(f.slug);
  }

  /** Mongoose casts `publishedAt` to a date; text is parsed by `castDate`, the stand-in for `new Date(text)`. */
  function CastPublishedAt(st: Stamp, castDate: string -> Option<int>): Option<int> {
    match st
    case Instant(ms) => Some(ms)
    case DateText(s) => castDate(s)
  }

  function CastMessage(s: string): string {
    "Cast to date failed for value \"" + s + "\" (type string) at path \"publishedAt\""
  }

  /** `required` on a string rejects the empty string. */
  function Required(path: string, value: string, message: string): seq<PathError> {
    if value == "" then [PathError(path, message)] else []
  }

  function MaxLength(path: string, value: string, max: nat): seq<PathError> {
    if |value| > max then
      [PathError(path, "Path `" + path + "` (`" + value + "`) is longer than the maximum allowed length (" + NatToString(max) + ").")]
    else []
  }

  function Enum(path: string, value: string, values: seq<string>): seq<PathError> {
    if value !in values then [PathError(path, "`" + value + "` is not a valid enum value for path `" + path + "`.")] else []
  }

  /**
   * The validators `create` runs, in schema order, on fields after the setters: at most one
   * error per path, `required` first.
   */
  function CreateErrors(f: Fields, st: Stamp, castDate: string -> Option<int>): (errs: seq<PathError>)
    ensures errs == [] ==> CastPublishedAt(st, castDate).Some?
    ensures errs == [] <==>
      && f.title != "" && f.slug != "" && f.category in BlogCategories
      && f.coverImage != "" && f.excerpt != "" && |f.excerpt| <= 200 && f.content != ""
      && |f.seo.metaDescription| <= 160 && CastPublishedAt(st, castDate).Some?
  {
    Required("title", f.title, "Post title is required")
    + Required("slug", f.slug, "Path `slug` is required.")
    + (if f.category == "" then [PathError("category", "Category is required")] else Enum("category", f.category, BlogCategories))
    + Required("coverImage", f.coverImage, "A cover image is required")
    + (if f.excerpt == "" then [PathError("excerpt", "Path `excerpt` is required.")] else MaxLength("excerpt", f.excerpt, 200))
    + Required("content", f.content, "Path `content` is required.")
    + MaxLength("seo.metaDescription", f.seo.metaDescription, 160)
    + (if CastPublishedAt(st, castDate).None? then [PathError("publishedAt", CastMessage(st.text))] else [])
  }

  function RenderErrors(errs: seq<PathError>): string {
    if |errs| == 0 then ""
    else if |errs| == 1 then errs[0].path + ": " + errs[0].message
    else errs[0].path + ": " + errs[0].message + ", " + RenderErrors(errs[1..])
  }

  /** The message of a Mongoose `ValidationError` for model `Blog`. */
  function ValidationMessage(errs: seq<PathError>): string {
    "Blog validation failed: " + RenderErrors(errs)
  }

  /** On a document with the stored shape only the emptiness checks and the date cast can report. */
  lemma ErrorsOfStoredShape(g: Fields, st: Stamp, castDate: string -> Option<int>)
    requires StoredShape(g)
    ensures CreateErrors(g, st, castDate) ==
      Required("title", g.title, "Post title is required")
      + Required("coverImage", g.coverImage, "A cover image is required")
      + (if g.excerpt == "" then [PathError("excerpt", "Path `excerpt` is required.")] else [])
      + (if CastPublishedAt(st, castDate).None? then [PathError("publishedAt", CastMessage(st.text))] else [])
  {
    assert Required("slug", g.slug, "Path `slug` is required.") == [];
    assert Enum("category", g.category, BlogCategories) == [];
    assert MaxLength("excerpt", g.excerpt, 200) == [];
    assert Required("content", g.content, "Path `content` is required.") == [];
    assert MaxLength("seo.metaDescription", g.seo.metaDescription, 160) == [];
  }

  /** The paths a document with the stored shape can still fail on. */
  lemma PathsOfStoredShape(g: Fields, st: Stamp, castDate: string -> Option<int>)
    requires StoredShape(g)
    ensures forall e :: e in CreateErrors(g, st, castDate) ==> e.path in {"title", "coverImage", "excerpt", "publishedAt"}
  {
    ErrorsOfStoredShape(g, st, castDate);
    var title := Required("title", g.title, "Post title is required");
    var cover := Required("coverImage", g.coverImage, "A cover image is required");
    var excerpt: seq<PathError> := if g.excerpt == "" then [PathError("excerpt", "Path `excerpt` is required.")] else [];
    var date: seq<PathError> := if CastPublishedAt(st, castDate).None? then [PathError("publishedAt", CastMessage(st.text))] else [];
    forall e: PathError | e in title + cover + excerpt + date
      ensures e.path in {"title", "coverImage", "excerpt", "publishedAt"}
    {
      if e in title {
        assert e.path == "title";
      } else if e in cover {
        assert e.path == "coverImage";
      } else if e in excerpt {
        assert e.path == "excerpt";
      } else {
        assert e in date;
        assert e.path == "publishedAt";
      }
    }
  }

  /** After the zod schema accepted a post, creation can only fail on emptiness and the date cast. */
  lemma SchemaLeavesOnlyEmptiness(f: Fields, st: Stamp, castDate: string -> Option<int>)
    requires Conforms(f)
    ensures forall e :: e in CreateErrors(ApplySetters(f), st, castDate) ==> e.path in {"title", "coverImage", "excerpt", "publishedAt"}
  {
    PathsOfStoredShape(ApplySetters(f), st, castDate);
  }

  /** The schema's `""` defaults for cover image and excerpt are refused by `required` on create. */
  lemma EmptyDefaultsRefused(f: Fields, st: Stamp, castDate: string -> Option<int>)
    requires f.coverImage == "" || f.excerpt == ""
    ensures CreateErrors(ApplySetters(f), st, castDate) != []
    ensures f.coverImage == "" ==> PathError("coverImage", "A cover image is required") in CreateErrors(ApplySetters(f), st, castDate)
  {
  }

  /** A title of white space only passes the zod length check yet is empty once trimmed, and create refuses it. */
  lemma BlankTitleRefused(f: Fields, st: Stamp, castDate: string -> Option<int>)
    requires f.title != [] && AllSpace(f.title)
    ensures CreateErrors(ApplySetters(f), st, castDate)[0] == PathError("title", "Post title is required")
  {
    TrimAfterSpace(f.title, "");
    assert f.title + "" == f.title;
  }

  /** The unique index: no two documents share a slug. */
  ghost predicate SlugsUnique(docs: map<Id, Doc>) {
    forall i, j :: i in docs && j in docs && i != j ==> docs[i].fields.slug != docs[j].fields.slug
  }

  /** Some document other than `except` already holds `slug`: the write would raise duplicate key 11000. */
  predicate SlugTaken(docs: map<Id, Doc>, slug: string, except: Option<Id>) {
    exists id :: id in docs && Some(id) != except && docs[id].fields.slug == slug
  }
}
