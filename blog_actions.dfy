/**
 * The server actions of app/actions/BlogActions.ts: the form-to-post normalisation, the
 * edit-form flattening, the error classification, and the post store on which create,
 * update, delete and the two lookups act, with the log of revalidated paths.
 */
module BlogActions {
  import opened Wrappers
  import opened Text
  import opened Validation
  import opened BlogModel

  /** The names of the flat form fields; `ObjectId` is `_id`, `Other` any further key a record may carry. */
  datatype FieldName =
    | Title | Slug | Category | Author | CoverImage | Excerpt | Content
    | MetaTitle | MetaDescription | Keywords | OgImage | Canonical
    | IsPublished | IsSearchable | IsFeatured | NoIndex | PublishedAt | ObjectId
    | Other(name: string)

  /** The flat record a form submits: field name to raw value. */
  type RawForm = map<FieldName, Raw>

  /** Reading a field; a missing key reads as `undefined`. */
  function Get(raw: RawForm, key: FieldName): Raw {
    if key in raw then raw[key] else Absent
  }

  /** The HTML-checkbox convention: `"on"` or `true` is checked; anything else, absence included, is not. */
  predicate IsChecked(v: Raw) {
    v == Str("on") || v == Bool(true)
  }

  /** A keyword as stored: non-empty, no white space at either end, no comma. */
  predicate KeywordToken(k: string) {
    k != "" && IsTrimmed(k) && ',' !in k
  }

  predicate CleanKeywords(ks: seq<string>) {
    forall i :: 0 <= i < |ks| ==> KeywordToken(ks[i])
  }

  lemma TrimKeepsOut(p: string, c: char)
    requires c !in p
    ensures c !in Trim(p)
  {
    var a := TrimStart(p);
    assert a == p[|p| - |a|..];
    assert c !in a by {
      forall i | 0 <= i < |a| ensures a[i] != c {
        assert a[i] == p[|p| - |a| + i];
      }
    }
    var b := TrimEnd(a);
    assert b == a[..|b|];
    forall i | 0 <= i < |b| ensures b[i] != c {
      assert b[i] == a[i];
    }
  }

  /** `.map(k => k.trim()).filter(Boolean)`: each piece trimmed, empty ones dropped, order kept. */
  function CleanTokens(pieces: seq<string>): (r: seq<string>)
    requires forall i :: 0 <= i < |pieces| ==> ',' !in pieces[i]
    ensures CleanKeywords(r)
    ensures |r| <= |pieces|
  {
    if pieces == [] then []
    else
      var t := Trim(pieces[0]);
      TrimKeepsOut(pieces[0], ',');
      var head := if t == "" then [] else [t];
      assert forall i :: 0 <= i < |pieces| - 1 ==> pieces[1..][i] == pieces[i + 1];
      var rest := CleanTokens(pieces[1..]);
      CleanAppend(head, rest);
      head + rest
  }

  lemma CleanAppend(a: seq<string>, b: seq<string>)
    requires CleanKeywords(a) && CleanKeywords(b)
    ensures CleanKeywords(a + b)
  {
    forall i | 0 <= i < |a + b| ensures KeywordToken((a + b)[i]) {
      if i < |a| {
        assert (a + b)[i] == a[i];
      } else {
        assert (a + b)[i] == b[i - |a|];
      }
    }
  }

  /** The keyword list of a raw `keywords` value: only a string with non-blank text yields tokens. */
  function ParseKeywords(v: Raw): (r: seq<string>)
    ensures CleanKeywords(r)
    ensures !v.Str? || Trim(v.s) == "" ==> r == []
    ensures v.Str? && Trim(v.s) != "" ==> r == CleanTokens(Split(v.s, ','))
  {
    if v.Str? && Trim(v.s) != "" then CleanTokens(Split(v.s, ',')) else []
  }

  /** `transformFormData`: total; builds the nested `seo` and `indexControl` records and coerces checkboxes. */
  function Transform(raw: RawForm): (c: Candidate)
    // every other field the schema reads is passed through as given
    ensures c.title == Get(raw, Title) && c.slug == Get(raw, Slug) && c.category == Get(raw, Category)
    ensures c.author == Get(raw, Author) && c.coverImage == Get(raw, CoverImage)
    ensures c.excerpt == Get(raw, Excerpt) && c.content == Get(raw, Content)
    ensures c.publishedAt == Get(raw, PublishedAt)
    // checkboxes become booleans, true exactly for "on" or true
    ensures c.isPublished.Bool? && (c.isPublished.b <==> IsChecked(Get(raw, IsPublished)))
    ensures c.indexControl.Some?
    ensures c.indexControl.value.isSearchable.Bool? && (c.indexControl.value.isSearchable.b <==> IsChecked(Get(raw, IsSearchable)))
    ensures c.indexControl.value.isFeatured.Bool? && (c.indexControl.value.isFeatured.b <==> IsChecked(Get(raw, IsFeatured)))
    // fallback chains
    ensures c.seo.Some?
    ensures Truthy(Get(raw, MetaTitle)) ==> c.seo.value.metaTitle == Get(raw, MetaTitle)
    ensures !Truthy(Get(raw, MetaTitle)) ==> c.seo.value.metaTitle == Get(raw, Title)
    ensures Truthy(Get(raw, OgImage)) ==> c.seo.value.ogImage == Get(raw, OgImage)
    ensures !Truthy(Get(raw, OgImage)) && Truthy(Get(raw, CoverImage)) ==> c.seo.value.ogImage == Get(raw, CoverImage)
    ensures !Truthy(Get(raw, OgImage)) && !Truthy(Get(raw, CoverImage)) ==> c.seo.value.ogImage == Str("")
    ensures Truthy(Get(raw, MetaDescription)) ==> c.seo.value.metaDescription == Get(raw, MetaDescription)
    ensures !Truthy(Get(raw, MetaDescription)) ==> c.seo.value.metaDescription == Str("")
    ensures Truthy(Get(raw, Canonical)) ==> c.seo.value.canonical == Get(raw, Canonical)
    ensures !Truthy(Get(raw, Canonical)) ==> c.seo.value.canonical == Str("")
    ensures c.seo.value.keywords == Some(ParseKeywords(Get(raw, Keywords)))
  {
    Candidate(
      title := Get(raw, Title),
      slug := Get(raw, Slug),
      category := Get(raw, Category),
      author := Get(raw, Author),
      coverImage := Get(raw, CoverImage),
      excerpt := Get(raw, Excerpt),
      content := Get(raw, Content),
      isPublished := Bool(IsChecked(Get(raw, IsPublished))),
      seo := Some(SeoCandidate(
        metaTitle := Or(Get(raw, MetaTitle), Get(raw, Title)),
        metaDescription := Or(Get(raw, MetaDescription), Str("")),
        keywords := Some(ParseKeywords(Get(raw, Keywords))),
        ogImage := Or(Or(Get(raw, OgImage), Get(raw, CoverImage)), Str("")),
        canonical := Or(Get(raw, Canonical), Str("")))),
      indexControl := Some(IndexCandidate(
        isSearchable := Bool(IsChecked(Get(raw, IsSearchable))),
        isFeatured := Bool(IsChecked(Get(raw, IsFeatured))))),
      publishedAt := Get(raw, PublishedAt))
  }

  /** The text before the first comma is one piece of a join; the next pieces follow the space. */
  lemma {:induction false} SplitJoined(pre: string, ks: seq<string>)
    requires |ks| >= 1
    requires ',' !in pre && CleanKeywords(ks)
    ensures |Split(pre + Join(ks, ", "), ',')| == |ks|
    ensures Split(pre + Join(ks, ", "), ',') ==
      [pre + ks[0]] + (if |ks| == 1 then [] else Split(" " + Join(ks[1..], ", "), ','))
    decreases |ks|
  {
    if |ks| == 1 {
      assert pre + Join(ks, ", ") == pre + ks[0];
      assert ',' !in pre + ks[0];
      SplitWithoutSeparator(pre + ks[0], ',');
    } else {
      var rest := Join(ks[1..], ", ");
      assert pre + Join(ks, ", ") == (pre + ks[0]) + [','] + (" " + rest);
      assert ',' !in pre + ks[0];
      SplitAtSeparator(pre + ks[0], ',', " " + rest);
      SplitJoined(" ", ks[1..]);
      assert " " + Join(ks[1..], ", ") == " " + rest;
    }
  }

  /** Joining clean keywords with `", "` and parsing the text again gives the same list. */
  lemma {:induction false} KeywordsRoundTrip(ks: seq<string>)
    requires CleanKeywords(ks)
    ensures ParseKeywords(Str(Join(ks, ", "))) == ks
  {
    if ks == [] {
      assert Join(ks, ", ") == "";
    } else {
      TokensOfJoin("", ks);
      var s := Join(ks, ", ");
      assert s == "" + s;
      JoinStartsWithFirst(ks);
      assert !IsSpace(s[0]);
      TrimKeepsNonSpaceStart(s);
    }
  }

  lemma {:induction false} JoinStartsWithFirst(ks: seq<string>)
    requires |ks| >= 1
    ensures |Join(ks, ", ")| >= |ks[0]| && Join(ks, ", ")[..|ks[0]|] == ks[0]
  {
    if |ks| > 1 {
      assert Join(ks, ", ") == ks[0] + ", " + Join(ks[1..], ", ");
    }
  }

  /** A first piece that trims to the first keyword, followed by pieces that clean to the rest, cleans to all of them. */
  lemma CleanTokensOfFirst(pieces: seq<string>, ks: seq<string>)
    requires |pieces| >= 1 && forall i :: 0 <= i < |pieces| ==> ',' !in pieces[i]
    requires |ks| >= 1 && Trim(pieces[0]) == ks[0] && ks[0] != ""
    requires CleanTokens(pieces[1..]) == ks[1..]
    ensures CleanTokens(pieces) == ks
  {
    var t := Trim(pieces[0]);
    var rest := CleanTokens(pieces[1..]);
    CleanTokensUnfold(pieces);
    assert CleanTokens(pieces) == [t] + rest;
    ConsFirst(ks);
  }

  /** Proof helper: a non-empty list is its head followed by its tail. */
  lemma ConsFirst(ks: seq<string>)
    requires |ks| >= 1
    ensures [ks[0]] + ks[1..] == ks
  {
  }

  /** Proof helper: one unfolding of `CleanTokens`. */
  lemma CleanTokensUnfold(pieces: seq<string>)
    requires |pieces| >= 1 && forall i :: 0 <= i < |pieces| ==> ',' !in pieces[i]
    ensures var t := Trim(pieces[0]);
      CleanTokens(pieces) == (if t == "" then [] else [t]) + CleanTokens(pieces[1..])
  {
  }

  /** The pieces of `pre + join(ks, ", ")`: `pre` glued to the first keyword, then the pieces of the rest. */
  lemma PiecesOfJoin(pre: string, ks: seq<string>)
    requires |ks| >= 1
    requires ',' !in pre && CleanKeywords(ks)
    ensures var pieces := Split(pre + Join(ks, ", "), ',');
      && pieces[0] == pre + ks[0]
      && (|ks| == 1 ==> pieces[1..] == [])
      && (|ks| > 1 ==> pieces[1..] == Split(" " + Join(ks[1..], ", "), ','))
  {
    SplitJoined(pre, ks);
  }

  lemma CleanTail(ks: seq<string>)
    requires |ks| >= 1 && CleanKeywords(ks)
    ensures CleanKeywords(ks[1..])
  {
    forall i | 0 <= i < |ks| - 1 ensures KeywordToken(ks[1..][i]) {
      assert ks[1..][i] == ks[i + 1];
    }
  }

  lemma {:induction false} TokensOfJoin(pre: string, ks: seq<string>)
    requires |ks| >= 1
    requires AllSpace(pre) && ',' !in pre && CleanKeywords(ks)
    ensures CleanTokens(Split(pre + Join(ks, ", "), ',')) == ks
    decreases |ks|
  {
    var pieces := Split(pre + Join(ks, ", "), ',');
    assert KeywordToken(ks[0]);
    PiecesOfJoin(pre, ks);
    TrimAfterSpace(pre, ks[0]);
    if |ks| > 1 {
      CleanTail(ks);
      assert AllSpace(" ");
      TokensOfJoin(" ", ks[1..]);
    }
    CleanTokensOfFirst(pieces, ks);
  }

  /**
   * `getBlogPostById`'s flattening: the stored document spread out, its dates kept as dates,
   * with nested SEO and index controls added as top-level form fields.
   */
  function Flatten(d: Doc): (raw: RawForm)
    ensures Get(raw, ObjectId) == Str(NatToString(d.id))
    ensures Get(raw, IsSearchable).Bool? && Get(raw, IsFeatured).Bool? && Get(raw, IsPublished).Bool?
    ensures Get(raw, PublishedAt) == Date(d.publishedAt)
    ensures Get(raw, Other("createdAt")) == Date(d.createdAt) && Get(raw, Other("updatedAt")) == Date(d.updatedAt)
  {
    var f := d.fields;
    map[
      ObjectId := Str(NatToString(d.id)),
      PublishedAt := Date(d.publishedAt),
      Other("createdAt") := Date(d.createdAt),
      Other("updatedAt") := Date(d.updatedAt),
      Title := Str(f.title),
      Slug := Str(f.slug),
      Category := Str(f.category),
      Author := Str(f.author),
      CoverImage := Str(f.coverImage),
      Excerpt := Str(f.excerpt),
      Content := Str(f.content),
      MetaTitle := Str(f.seo.metaTitle),
      MetaDescription := Str(f.seo.metaDescription),
      Keywords := Str(Join(f.seo.keywords, ", ")),
      OgImage := Str(f.seo.ogImage),
      Canonical := Str(f.seo.canonical),
      IsPublished := Bool(f.isPublished),
      IsSearchable := Bool(f.indexControl.isSearchable),
      IsFeatured := Bool(f.indexControl.isFeatured)
    ]
  }

  /** The fields after the normaliser re-derives its fallbacks: empty meta title and OG image refilled. */
  function Refilled(f: Fields): (g: Fields)
    ensures f.seo.metaTitle != "" && f.seo.ogImage != "" ==> g == f
  {
    f.(seo := f.seo.(
      metaTitle := if f.seo.metaTitle != "" then f.seo.metaTitle else f.title,
      ogImage := if f.seo.ogImage != "" then f.seo.ogImage else f.coverImage))
  }

  /** Proof helper for `FlattenReads`, split off to keep each proof small: the content fields. */
  lemma FlattenReadsContent(d: Doc)
    ensures var f := d.fields; var raw := Flatten(d);
      && Get(raw, Title) == Str(f.title) && Get(raw, Slug) == Str(f.slug) && Get(raw, Category) == Str(f.category)
      && Get(raw, Author) == Str(f.author) && Get(raw, CoverImage) == Str(f.coverImage)
      && Get(raw, Excerpt) == Str(f.excerpt) && Get(raw, Content) == Str(f.content)
  {
    FlattenReadsHeading(d);
    FlattenReadsBody(d);
  }

  /** Proof helper for `FlattenReads`: title, slug, category and author. */
  lemma FlattenReadsHeading(d: Doc)
    ensures var f := d.fields; var raw := Flatten(d);
      && Get(raw, Title) == Str(f.title) && Get(raw, Slug) == Str(f.slug)
      && Get(raw, Category) == Str(f.category) && Get(raw, Author) == Str(f.author)
  {
    FlattenReadsName(d);
    FlattenReadsByline(d);
  }

  /** Proof helper for `FlattenReads`: title and slug. */
  lemma FlattenReadsName(d: Doc)
    ensures Get(Flatten(d), Title) == Str(d.fields.title) && Get(Flatten(d), Slug) == Str(d.fields.slug)
  {
  }

  /** Proof helper for `FlattenReads`: category and author. */
  lemma FlattenReadsByline(d: Doc)
    ensures Get(Flatten(d), Category) == Str(d.fields.category) && Get(Flatten(d), Author) == Str(d.fields.author)
  {
  }

  /** Proof helper for `FlattenReads`: cover image, excerpt and content. */
  lemma FlattenReadsBody(d: Doc)
    ensures var f := d.fields; var raw := Flatten(d);
      && Get(raw, CoverImage) == Str(f.coverImage)
      && Get(raw, Excerpt) == Str(f.excerpt) && Get(raw, Content) == Str(f.content)
  {
  }

  /** Proof helper for `FlattenReads`: the flattened SEO fields. */
  lemma FlattenReadsSeo(d: Doc)
    ensures var f := d.fields; var raw := Flatten(d);
      && Get(raw, MetaTitle) == Str(f.seo.metaTitle) && Get(raw, MetaDescription) == Str(f.seo.metaDescription)
      && Get(raw, OgImage) == Str(f.seo.ogImage) && Get(raw, Canonical) == Str(f.seo.canonical)
      && Get(raw, Keywords) == Str(Join(f.seo.keywords, ", "))
  {
  }

  /** Proof helper for `FlattenReads`: the three flags and the date. */
  lemma FlattenReadsFlags(d: Doc)
    ensures var f := d.fields; var raw := Flatten(d);
      && Get(raw, IsPublished) == Bool(f.isPublished) && Get(raw, PublishedAt) == Date(d.publishedAt)
      && Get(raw, IsSearchable) == Bool(f.indexControl.isSearchable)
      && Get(raw, IsFeatured) == Bool(f.indexControl.isFeatured)
  {
  }

  /** The values a flattened document presents to the normaliser. */
  lemma FlattenReads(d: Doc)
    ensures var f := d.fields; var raw := Flatten(d);
      && Get(raw, Title) == Str(f.title) && Get(raw, Slug) == Str(f.slug) && Get(raw, Category) == Str(f.category)
      && Get(raw, Author) == Str(f.author) && Get(raw, CoverImage) == Str(f.coverImage)
      && Get(raw, Excerpt) == Str(f.excerpt) && Get(raw, Content) == Str(f.content)
      && Get(raw, IsPublished) == Bool(f.isPublished) && Get(raw, PublishedAt) == Date(d.publishedAt)
      && Get(raw, IsSearchable) == Bool(f.indexControl.isSearchable)
      && Get(raw, IsFeatured) == Bool(f.indexControl.isFeatured)
      && Get(raw, MetaTitle) == Str(f.seo.metaTitle) && Get(raw, MetaDescription) == Str(f.seo.metaDescription)
      && Get(raw, OgImage) == Str(f.seo.ogImage) && Get(raw, Canonical) == Str(f.seo.canonical)
      && Get(raw, Keywords) == Str(Join(f.seo.keywords, ", "))
  {
    FlattenReadsContent(d);
    FlattenReadsSeo(d);
    FlattenReadsFlags(d);
  }

  /** The normaliser applied to a flattened document: every field given, fallbacks re-derived, the stored date passed on. */
  lemma TransformFlatten(d: Doc)
    requires CleanKeywords(d.fields.seo.keywords)
    ensures var g := Refilled(d.fields);
      Transform(Flatten(d)) == Candidate(
        Str(g.title), Str(g.slug), Str(g.category), Str(g.author), Str(g.coverImage), Str(g.excerpt),
        Str(g.content), Bool(g.isPublished),
        Some(SeoCandidate(Str(g.seo.metaTitle), Str(g.seo.metaDescription), Some(g.seo.keywords),
                          Str(g.seo.ogImage), Str(g.seo.canonical))),
        Some(IndexCandidate(Bool(g.indexControl.isSearchable), Bool(g.indexControl.isFeatured))),
        Date(d.publishedAt))
  {
    FlattenReads(d);
    KeywordsRoundTrip(d.fields.seo.keywords);
  }

  /**
   * Flatten, then normalise and validate again: the same post with the same publication date,
   * except that the fallbacks are re-derived.
   */
  lemma FlattenRoundTrip(d: Doc, now: int)
    requires CleanKeywords(d.fields.seo.keywords)
    requires Conforms(Refilled(d.fields))
    ensures Parse(Transform(Flatten(d)), now) == Success(BlogPost(Refilled(d.fields), Instant(d.publishedAt)))
  {
    TransformFlatten(d);
    ParseKeepsComplete(Transform(Flatten(d)), now);
  }

  /**
   * A title over seventy characters with no meta title of its own becomes the meta title, and the
   * schema then refuses the post on `seo.metaTitle`.
   */
  lemma LongTitleRefusedAsMetaTitle(raw: RawForm, now: int)
    requires Get(raw, Title).Str? && |Get(raw, Title).s| > 70
    requires !Truthy(Get(raw, MetaTitle))
    ensures Parse(Transform(raw), now).Failure?
    ensures Issue(["seo", "metaTitle"], MetaTitleRule.maxMessage) in Parse(Transform(raw), now).error
  {
    var c := Transform(raw);
    var sc := c.seo.value;
    assert sc.metaTitle == Get(raw, Title);
    assert CheckString(sc.metaTitle, MetaTitleRule) == Failure(MetaTitleRule.maxMessage);
    var seo := ParseSeo(c.seo);
    assert Issue(["seo", "metaTitle"], MetaTitleRule.maxMessage) in seo.error;
  }

  /** The uniform response shape of every action. */
  datatype ActionResponse = ActionResponse(success: bool, message: string, error: string, data: Option<string>)

  /** A thrown error, as far as the handler inspects it: `name`, `code`, `message`, and zod's issue list. */
  datatype Thrown = Thrown(name: string, code: Option<int>, message: string, issues: seq<Issue>)

  const DuplicateMessage := "A post with this title or slug already exists."
  const NotFoundMessage := "Post not found"

  function ZodFailure(issues: seq<Issue>): Thrown {
    Thrown("ZodError", None, "", issues)
  }

  function StoreValidationFailure(errs: seq<PathError>): Thrown {
    Thrown("ValidationError", None, ValidationMessage(errs), [])
  }

  function DuplicateKey(slug: string): Thrown {
    Thrown("MongoServerError", Some(11000), "E11000 duplicate key error dup key: { slug: \"" + slug + "\" }", [])
  }

  function CastFailure(text: string): Thrown {
    Thrown("CastError", None, CastMessage(text) + " for model \"Blog\"", [])
  }

  /** `handleActionError`: a failure response whose text is classified in order zod, duplicate key, anything else. */
  function HandleActionError(e: Thrown): (r: ActionResponse)
    ensures !r.success && r.message == "" && r.data.None?
    ensures e.name == "ZodError" ==>
      r.error == if |e.issues| > 0 && e.issues[0].message != "" then e.issues[0].message else "Validation failed"
    ensures e.name != "ZodError" && e.code == Some(11000) ==> r.error == DuplicateMessage
    ensures e.name != "ZodError" && e.code != Some(11000) ==>
      r.error == if e.message != "" then e.message else "An unexpected error occurred"
  {
    var error :=
      if e.name == "ZodError" then
        (if |e.issues| > 0 && e.issues[0].message != "" then e.issues[0].message else "Validation failed")
      else if e.code == Some(11000) then DuplicateMessage
      else if e.message != "" then e.message
      else "An unexpected error occurred";
    ActionResponse(false, "", error, None)
  }

  /** What a write has to store, or the error thrown before the store is touched. */
  datatype Prepared = Rejected(thrown: Thrown) | Ready(fields: Fields, schemaSlug: string, publishedAt: int)

  /** Create's pipeline up to the insert: normalise, parse, apply setters, run the document validators. */
  function PrepareCreate(raw: RawForm, now: int, castDate: string -> Option<int>): (p: Prepared)
    ensures Parse(Transform(raw), now).Failure? ==> p == Rejected(ZodFailure(Parse(Transform(raw), now).error))
    ensures p.Ready? ==> StoredShape(p.fields)
    ensures p.Ready? ==> CleanKeywords(p.fields.seo.keywords)
    ensures p.Ready? ==> p.fields.coverImage != "" && p.fields.excerpt != "" && p.fields.title != ""
    ensures p.Ready? ==> p.fields.slug == Lower(p.schemaSlug)
  {
    var v := Parse(Transform(raw), now);
    if v.Failure? then Rejected(ZodFailure(v.error))
    else
      var f := ApplySetters(v.value.fields);
      var errs := CreateErrors(f, v.value.publishedAt, castDate);
      if errs != [] then Rejected(StoreValidationFailure(errs))
      else Ready(f, v.value.fields.slug, CastPublishedAt(v.value.publishedAt, castDate).value)
  }

  /**
   * Once the schema accepts the form, create's outcome depends only on the parsed post: the
   * setters' output is stored when the document validators find nothing, and otherwise their
   * errors are thrown as a validation failure.
   */
  lemma CreateOfParsed(raw: RawForm, now: int, castDate: string -> Option<int>, post: BlogPost)
    requires Parse(Transform(raw), now) == Success(post)
    ensures var f := ApplySetters(post.fields);
      var errs := CreateErrors(f, post.publishedAt, castDate);
      && (errs != [] ==> PrepareCreate(raw, now, castDate) == Rejected(StoreValidationFailure(errs)))
      && (errs == [] ==> CastPublishedAt(post.publishedAt, castDate).Some?)
      && (errs == [] ==>
            PrepareCreate(raw, now, castDate) == Ready(f, post.fields.slug, CastPublishedAt(post.publishedAt, castDate).value))
  {
  }

  /** Update's pipeline up to the write: normalise, parse, apply setters, cast; no document validators run. */
  function PrepareUpdate(raw: RawForm, now: int, castDate: string -> Option<int>): (p: Prepared)
    ensures Parse(Transform(raw), now).Failure? ==> p == Rejected(ZodFailure(Parse(Transform(raw), now).error))
    ensures p.Ready? ==> StoredShape(p.fields)
    ensures p.Ready? ==> CleanKeywords(p.fields.seo.keywords)
    ensures p.Ready? ==> p.fields.slug == Lower(p.schemaSlug)
  {
    var v := Parse(Transform(raw), now);
    if v.Failure? then Rejected(ZodFailure(v.error))
    else
      var f := ApplySetters(v.value.fields);
      match CastPublishedAt(v.value.publishedAt, castDate)
      case None => Rejected(CastFailure(v.value.publishedAt.text))
      case Some(ms) => Ready(f, v.value.fields.slug, ms)
  }

  /** Once the schema accepts the form, update's outcome depends only on the parsed post. */
  lemma UpdateOfParsed(raw: RawForm, now: int, castDate: string -> Option<int>, post: BlogPost)
    requires Parse(Transform(raw), now) == Success(post)
    ensures PrepareUpdate(raw, now, castDate) ==
      match CastPublishedAt(post.publishedAt, castDate)
      case None => Rejected(CastFailure(post.publishedAt.text))
      case Some(ms) => Ready(ApplySetters(post.fields), post.fields.slug, ms)
  {
  }

  /**
   * Submitting the record `getBlogPostById` returns for a stored post unchanged yields that post's
   * fields and publication date again, provided its meta title and OG image were filled
   * (otherwise the fallbacks refill them).
   */
  lemma ResubmitKeepsFields(d: Doc, now: int, castDate: string -> Option<int>)
    requires WellStored(d) && Conforms(d.fields)
    requires d.fields.seo.metaTitle != "" && d.fields.seo.ogImage != ""
    ensures PrepareUpdate(Flatten(d), now, castDate) == Ready(d.fields, d.fields.slug, d.publishedAt)
  {
    FlattenRoundTrip(d, now);
    UpdateOfParsed(Flatten(d), now, castDate, BlogPost(d.fields, Instant(d.publishedAt)));
    SettersIdempotent(d.fields);
  }

  /** The edit form carries no `publishedAt`, so every accepted update re-dates the post to `now`. */
  lemma UpdateRedates(raw: RawForm, now: int, castDate: string -> Option<int>)
    requires PublishedAt !in raw
    ensures PrepareUpdate(raw, now, castDate).Ready? ==> PrepareUpdate(raw, now, castDate).publishedAt == now
  {
    var v := Parse(Transform(raw), now);
    if v.Success? {
      DefaultsFilled(Transform(raw), now);
    }
  }

  const AdminListPath := "/admin/dashboard/blog"
  const BlogListPath := "/blog"

  function PostPath(slug: string): string {
    "/blog/" + slug
  }

  /** The invariant of every stored document. */
  predicate WellStored(d: Doc) {
    StoredShape(d.fields) && CleanKeywords(d.fields.seo.keywords)
  }

  /**
   * The blog collection: documents by id, the ids handed out so far, and the log of paths
   * revalidated after each successful write.
   */
  class PostStore {
    var docs: map<Id, Doc>
    var paths: seq<string>
    var nextId: Id

    ghost predicate Valid()
      reads this
    {
      && (forall id :: id in docs ==> id < nextId && docs[id].id == id && WellStored(docs[id]))
      && SlugsUnique(docs)
    }

    constructor ()
      ensures Valid() && docs == map[] && paths == []
    {
      docs := map[];
      paths := [];
      nextId := 0;
    }

    /** `createBlogPost`: the create pipeline, then the insert. */
    method Create(raw: RawForm, now: int, castDate: string -> Option<int>) returns (resp: ActionResponse)
      requires Valid()
      modifies this
      ensures Valid()
      ensures match PrepareCreate(raw, now, castDate)
        case Rejected(e) =>
          resp == HandleActionError(e) && docs == old(docs) && paths == old(paths)
        case Ready(f, _, published) =>
          if SlugTaken(old(docs), f.slug, None) then
            resp == HandleActionError(DuplicateKey(f.slug)) && docs == old(docs) && paths == old(paths)
          else
            && old(nextId) !in old(docs)
            && docs == old(docs)[old(nextId) := Doc(old(nextId), f, published, now, now)]
            && paths == old(paths) + [AdminListPath, BlogListPath]
            && resp == ActionResponse(true, "Journal entry published successfully!", "", Some(f.slug))
    {
      resp := Insert(PrepareCreate(raw, now, castDate), now);
    }

    /** The write half of `createBlogPost`: insert under a fresh id unless the slug index refuses it. */
    method Insert(p: Prepared, now: int) returns (resp: ActionResponse)
      requires Valid()
      requires p.Ready? ==> WellStored(Doc(0, p.fields, p.publishedAt, now, now))
      modifies this
      ensures Valid()
      ensures match p
        case Rejected(e) =>
          resp == HandleActionError(e) && docs == old(docs) && paths == old(paths)
        case Ready(f, _, published) =>
          if SlugTaken(old(docs), f.slug, None) then
            resp == HandleActionError(DuplicateKey(f.slug)) && docs == old(docs) && paths == old(paths)
          else
            && old(nextId) !in old(docs)
            && docs == old(docs)[old(nextId) := Doc(old(nextId), f, published, now, now)]
            && paths == old(paths) + [AdminListPath, BlogListPath]
            && resp == ActionResponse(true, "Journal entry published successfully!", "", Some(f.slug))
    {
      match p {
        case Rejected(e) =>
          resp := HandleActionError(e);
        case Ready(f, _, published) =>
          if SlugTaken(docs, f.slug, None) {
            resp := HandleActionError(DuplicateKey(f.slug));
          } else {
            var id := nextId;
            docs := docs[id := Doc(id, f, published, now, now)];
            nextId := nextId + 1;
            paths := paths + [AdminListPath, BlogListPath];
            resp := ActionResponse(true, "Journal entry published successfully!", "", Some(f.slug));
          }
      }
    }

    /** `updateBlogPost`: the update pipeline, then the replacement of every field. */
    method Update(id: Id, raw: RawForm, now: int, castDate: string -> Option<int>) returns (resp: ActionResponse)
      requires Valid()
      modifies this
      ensures Valid()
      ensures match PrepareUpdate(raw, now, castDate)
        case Rejected(e) =>
          resp == HandleActionError(e) && docs == old(docs) && paths == old(paths)
        case Ready(f, schemaSlug, published) =>
          if id !in old(docs) then
            resp == ActionResponse(false, "", NotFoundMessage, None) && docs == old(docs) && paths == old(paths)
          else if SlugTaken(old(docs), f.slug, Some(id)) then
            resp == HandleActionError(DuplicateKey(f.slug)) && docs == old(docs) && paths == old(paths)
          else
            && docs == old(docs)[id := old(docs)[id].(fields := f, publishedAt := published, updatedAt := now)]
            && paths == old(paths) + [AdminListPath, PostPath(schemaSlug)]
            && resp == ActionResponse(true, "Updated successfully!", "", None)
    {
      resp := Replace(id, PrepareUpdate(raw, now, castDate), now);
    }

    /**
     * The write half of `updateBlogPost`: `findByIdAndUpdate` keeps the id and `createdAt`,
     * stamps `updatedAt`, and the slug index refuses a slug another document holds.
     */
    method Replace(id: Id, p: Prepared, now: int) returns (resp: ActionResponse)
      requires Valid()
      requires p.Ready? ==> WellStored(Doc(id, p.fields, p.publishedAt, now, now))
      modifies this
      ensures Valid()
      ensures match p
        case Rejected(e) =>
          resp == HandleActionError(e) && docs == old(docs) && paths == old(paths)
        case Ready(f, schemaSlug, published) =>
          if id !in old(docs) then
            resp == ActionResponse(false, "", NotFoundMessage, None) && docs == old(docs) && paths == old(paths)
          else if SlugTaken(old(docs), f.slug, Some(id)) then
            resp == HandleActionError(DuplicateKey(f.slug)) && docs == old(docs) && paths == old(paths)
          else
            && docs == old(docs)[id := old(docs)[id].(fields := f, publishedAt := published, updatedAt := now)]
            && paths == old(paths) + [AdminListPath, PostPath(schemaSlug)]
            && resp == ActionResponse(true, "Updated successfully!", "", None)
    {
      match p {
        case Rejected(e) =>
          resp := HandleActionError(e);
        case Ready(f, schemaSlug, published) =>
          if id !in docs {
            resp := ActionResponse(false, "", NotFoundMessage, None);
          } else if SlugTaken(docs, f.slug, Some(id)) {
            resp := HandleActionError(DuplicateKey(f.slug));
          } else {
            docs := docs[id := docs[id].(fields := f, publishedAt := published, updatedAt := now)];
            paths := paths + [AdminListPath, PostPath(schemaSlug)];
            resp := ActionResponse(true, "Updated successfully!", "", None);
          }
      }
    }

    /** `deleteBlogPost`: the slug is read before the document goes, for the post's own path. */
    method Delete(id: Id) returns (resp: ActionResponse)
      requires Valid()
      modifies this
      ensures Valid()
      ensures id !in old(docs) ==>
        resp == ActionResponse(false, "", NotFoundMessage, None) && docs == old(docs) && paths == old(paths)
      ensures id in old(docs) ==>
        && docs == old(docs) - {id}
        && paths == old(paths) + [AdminListPath, BlogListPath, PostPath(old(docs)[id].fields.slug)]
        && resp == ActionResponse(true, "Post deleted successfully", "", None)
    {
      if id !in docs {
        resp := ActionResponse(false, "", NotFoundMessage, None);
        return;
      }
      var slug := docs[id].fields.slug;
      docs := docs - {id};
      paths := paths + [AdminListPath, BlogListPath, PostPath(slug)];
      resp := ActionResponse(true, "Post deleted successfully", "", None);
    }

    /**
     * `getBlogPostBySlug`: `findOne({ slug })` with the slug setter applied to the filter.
     * There is no published filter, so drafts are returned too.
     */
    method GetBySlug(slug: string) returns (r: Option<Doc>)
      requires Valid()
      ensures r.Some? <==> exists id :: id in docs && docs[id].fields.slug == Lower(slug)
      ensures r.Some? ==> r.value.id in docs && docs[r.value.id] == r.value && r.value.fields.slug == Lower(slug)
    {
      var key := Lower(slug);
      if id :| id in docs && docs[id].fields.slug == key {
        r := Some(docs[id]);
      } else {
        r := None;
      }
    }

    /** `getBlogPostById`: the flattened edit-form record of the document, or nothing. */
    method GetById(id: Id) returns (r: Option<RawForm>)
      requires Valid()
      ensures id in docs <==> r.Some?
      ensures r.Some? ==> r.value == Flatten(docs[id])
    {
      if id in docs {
        r := Some(Flatten(docs[id]));
      } else {
        r := None;
      }
    }

    /** A full collection scan (`Blog.find()`): every stored document exactly once. */
    method Scan() returns (s: seq<Doc>)
      requires Valid()
      ensures |s| == |docs|
      ensures forall d :: d in s <==> d.id in docs && docs[d.id] == d
      ensures forall i, j :: 0 <= i < j < |s| ==> s[i].id != s[j].id
    {
      s := ScanMap(docs);
    }
  }

  /** Lists the documents of a map keyed by their own ids, each once, in no particular order. */
  method ScanMap(m: map<Id, Doc>) returns (s: seq<Doc>)
    requires forall id :: id in m ==> m[id].id == id
    ensures |s| == |m|
    ensures forall d :: d in s <==> d.id in m && m[d.id] == d
    ensures forall i, j :: 0 <= i < j < |s| ==> s[i].id != s[j].id
  {
    var rest := m.Keys;
    s := [];
    while rest != {}
      invariant rest <= m.Keys
      invariant |s| + |rest| == |m|
      invariant forall i :: 0 <= i < |s| ==> s[i].id in m && m[s[i].id] == s[i] && s[i].id !in rest
      invariant forall id :: id in m && id !in rest ==> m[id] in s
      invariant forall i, j :: 0 <= i < j < |s| ==> s[i].id != s[j].id
      decreases |rest|
    {
      var id :| id in rest;
      s := s + [m[id]];
      rest := rest - {id};
    }
  }
}
