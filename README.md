# NaturaPick journal: the blog-post write pipeline, in Dafny

This project models the blog engine of the NaturaPick site and proves properties of it. It
covers five parts:

- **The editor form**: `components/admin/BlogForm.tsx`. This is the slug generator, the
  reading-time estimate, the form record, and the small state machine behind the slug and author
  controls.
- **The server actions**: `app/actions/BlogActions.ts`. This is the normalisation of a flat form
  into the nested post, the error classification, and the flattening of a stored post back into
  the form. It also has create, update and delete over the collection, with the log of
  revalidated paths, and the two lookups.
- **The validation schema**: `lib/validations/zod.ts`. It checks lengths, the seven categories
  and required fields, fills in defaults, and reports issues in schema order.
- **The stored-document rules**: `models/Blog.ts`. Setters trim the title and the meta title and
  lower-case the slug. The create-time validators and the unique slug index are modelled too.
- **The listing queries** of the journal page, the home page, the admin list and the dashboard.

Modules follow the source files:

| module | file | source |
|---|---|---|
| `Wrappers` | `wrappers.dfy` | `Option`, `Result` |
| `Text` | `text.dfy` | JavaScript's `trim`, `split`, `join`, `toLowerCase` |
| `Validation` | `validation.dfy` | `lib/validations/zod.ts` |
| `BlogModel` | `blog_model.dfy` | `models/Blog.ts` |
| `BlogActions` | `blog_actions.dfy` | `app/actions/BlogActions.ts`; the collection as the class `PostStore` |
| `BlogForm` | `blog_form.dfy` | `components/admin/BlogForm.tsx`; the React state as the class `FormState`; the edit page's initial data |
| `Listings` | `listings.dfy` | `app/blog/page.tsx`, `app/page.tsx`, `app/admin/dashboard/blog/page.tsx`, `app/admin/dashboard/page.tsx` |

## How the source is represented

- **Form values.** A raw form value is `Absent | Str(s) | Bool(b) | Date(ms)`. This makes
  JavaScript's `undefined`, its `||` fallbacks, the checkbox convention and a stored date
  explicit. A form is a map from field names to raw values.
- **Parsing.** The schema parse returns a `Result`. Its error is the whole list of issues in
  schema order, and `handleActionError` reads only the first.
- **Clocks.** The clock is a parameter `now`. Mongoose's cast of a date string is a parameter
  `castDate`.
- **The collection.** It is a `map` from ids to documents, together with the next free id. A
  successful write appends the paths it revalidates to a `seq<string>` log. The class invariant
  says three things:
  - every stored document has the shape that setters and schema give it;
  - keywords are clean tokens;
  - no two documents share a slug.

  The listing queries are functions over a scan of the collection. `PostStore.Scan` produces that
  scan.

## Behaviour modelled as written

Where the code and its surroundings disagree, the model follows the code:

- **Index controls are never sent.** The form sends `noIndex`, but the normaliser reads
  `isSearchable` and `isFeatured`, and the form sends neither. So every submission, create or
  edit, stores `indexControl = {isSearchable: false, isFeatured: false}`. The edit page derives
  `noIndex` from `isSearchable`. Saving a post unchanged therefore turns its search indexing off
  (`BlogForm.EditSaveUnindexes`).
- **Lookup by slug has no published filter.** It returns drafts too.
- **Update re-dates the post.** The edit form carries no `publishedAt`, so the schema's default
  dates every accepted update to `now`.
- **Update revalidates the slug as the schema returned it.** It uses `/blog/<slug>`, before the
  lower-casing setter runs, and it does not revalidate `/blog`.
- **Update runs no store validators.** `findByIdAndUpdate` runs the setters and the unique index
  only.
- **The category list.** The seven categories of `lib/validations/zod.ts` are the categories of
  record. The type declarations in `types/blog.ts` list only four.

## Model

| member | source | states |
|---|---|---|
| Text.Trim | app/actions/BlogActions.ts:18-21 | `trim` returns a string with no white space at either end |
| Text.TrimStartDropsSpace | app/actions/BlogActions.ts:21 | what trimming removes at the start is white space only |
| Text.TrimEndDropsSpace | app/actions/BlogActions.ts:21 | what trimming removes at the end is white space only |
| Text.TrimKeepsNonSpaceStart | app/actions/BlogActions.ts:21 | text starting with a non-space character does not trim to nothing |
| Text.TrimAfterSpace | app/actions/BlogActions.ts:21 | trimming white space followed by a trimmed string gives back that string |
| Text.JoinSplit | app/actions/BlogActions.ts:20 | joining the comma-split pieces with a comma gives back the original text |
| Text.LowerIsLower | models/Blog.ts:24 | lower-casing yields lower-case text and is idempotent |
| Validation.CheckString | lib/validations/zod.ts:15-16 | a string field is accepted iff it is given with length within its bounds, or is absent and has a default; a given value is kept, an absent one takes the default; too short reports the rule's message, absent without default reports "Required", and a boolean or a date reports "Expected string, received …" |
| Validation.CheckCategory | lib/validations/zod.ts:3-19 | a category is accepted iff it is one of the seven; every refusal carries "Please select a valid category" |
| Validation.CheckBool | lib/validations/zod.ts:28 | a boolean field is accepted iff it is a boolean or absent; a boolean is kept, absent takes the default; anything else reports "Expected boolean, received …" |
| Validation.CheckPublishedAt | lib/validations/zod.ts:54 | `publishedAt` is accepted iff it is not a boolean: a date is kept as that instant, a date string as that text, and absent means `now`; a boolean reports "Invalid input" |
| Validation.ParseSeo | lib/validations/zod.ts:31-43 | a given `seo` object is accepted iff its meta title is at most 70 and its description at most 160 characters and every string field is a string or absent; the result is exactly the given texts and keywords, each absent one defaulted to `""` or `[]`; a missing object becomes the default record wholesale; a failure names at least one issue |
| Validation.ParseIndexControl | lib/validations/zod.ts:46-52 | a given `indexControl` is accepted iff each flag is a boolean or absent; the result is the given flags, an absent one defaulting to searchable and not featured; a missing object becomes `{true, false}` wholesale; a failure names at least one issue |
| Validation.Parse | lib/validations/zod.ts:13-55 | the parse succeeds iff the input is admissible field by field; every accepted post meets all length, enum and non-emptiness constraints; a failure reports at least one issue |
| Validation.DefaultsFilled | lib/validations/zod.ts:20-54 | absent fields take their defaults: author "NaturaPick Team", empty cover and excerpt, draft, no keywords and empty SEO texts, default `seo` and `indexControl`, searchable and not featured inside it, dated `now` |
| Validation.GivenValuesKept | lib/validations/zod.ts:13-55 | every given value survives the parse unchanged, including the SEO texts and keywords, the index flags, and a given date or date text |
| Validation.ParseKeepsComplete | lib/validations/zod.ts:13-55 | an admissible input with every field given comes out as exactly those values, dated by the given date or date text, or `now` when none is given |
| Validation.CategoryFirstIssue | lib/validations/zod.ts:15-19 | with title and slug fine, a category outside the seven is the first issue reported |
| Validation.SlugFirstIssue | lib/validations/zod.ts:15-16 | with the title fine, a missing slug is the first issue as "Required" and an empty one as "Slug is required" |
| Validation.ShortTitleFirstIssue | lib/validations/zod.ts:15 | a title under five characters is the first issue, with its custom message |
| Validation.ShortContentFirstIssue | lib/validations/zod.ts:15-25 | content under twenty characters is reported as "Content body is too short" once the earlier fields pass |
| BlogModel.ApplySetters | models/Blog.ts:15-26 | the title is trimmed, the slug lower-cased and the meta title trimmed, with nothing else changed; a schema-conforming post gets the stored shape |
| BlogModel.SettersIdempotent | models/Blog.ts:18-24 | the setters change nothing on a document that already has the stored shape |
| BlogModel.CreateErrors | models/Blog.ts:15-59 | create's validators pass iff title, slug, cover image, excerpt and content are non-empty, the category is one of the seven, the excerpt is at most 200 and the meta description at most 160, and the date casts |
| BlogModel.ErrorsOfStoredShape | models/Blog.ts:15-59 | on a document with the stored shape, create's errors are exactly the empty title, cover image and excerpt and a date that does not cast, in schema order |
| BlogModel.PathsOfStoredShape | models/Blog.ts:15-59 | on a document with the stored shape, every create error is at the title, cover image, excerpt or date |
| BlogModel.SchemaLeavesOnlyEmptiness | models/Blog.ts:47-59 | after the schema accepts a post, create can fail only on title, cover image, excerpt or the date |
| BlogModel.EmptyDefaultsRefused | models/Blog.ts:47-55 | the schema's empty defaults for cover image or excerpt are refused by `required` on create |
| BlogModel.BlankTitleRefused | models/Blog.ts:15-19 | a title of white space only passes the schema's length check, becomes empty once trimmed, and is the first create error |
| BlogActions.ParseKeywords | app/actions/BlogActions.ts:17-23 | only a string with non-blank text yields keywords: its comma-split pieces, trimmed, empties dropped, order kept; anything else yields `[]` |
| BlogActions.Transform | app/actions/BlogActions.ts:16-43 | the normaliser is total; fields pass through; checkboxes are true iff "on" or `true`; meta title falls back to title, OG image to cover image then `""`, description and canonical to `""` |
| BlogActions.KeywordsRoundTrip | app/actions/BlogActions.ts:16-22 | clean keywords joined with ", " parse back to the same list |
| BlogActions.Flatten | app/actions/BlogActions.ts:131-152 | the flattened record spreads the stored dates (`publishedAt`, `createdAt`, `updatedAt`) as dates, carries the id as a decimal string and the three flags as booleans |
| BlogActions.FlattenReads | app/actions/BlogActions.ts:134-152 | each flattened form field holds the stored field it came from, the publication date included, and the keywords joined with ", " |
| BlogActions.TransformFlatten | app/actions/BlogActions.ts:15-43 | normalising a flattened post gives every field back, with only the fallbacks re-derived, and passes the stored publication date on |
| BlogActions.FlattenRoundTrip | app/actions/BlogActions.ts:134-152 | flattening, normalising and parsing a post gives back the same post with its fallbacks refilled and its own publication date |
| BlogActions.LongTitleRefusedAsMetaTitle | app/actions/BlogActions.ts:30 | a title over 70 characters with no meta title becomes the meta title and is refused at `seo.metaTitle` |
| BlogActions.HandleActionError | app/actions/BlogActions.ts:97-121 | every error response is unsuccessful with an empty message; a zod error gives its first issue's message or "Validation failed"; code 11000 gives the duplicate message; anything else gives its message or the generic text |
| BlogActions.PrepareCreate | app/actions/BlogActions.ts:51-54 | a schema failure is thrown as a ZodError with the issues; a document ready to insert has the stored shape, clean keywords, non-empty title, cover image and excerpt, and the lower-cased slug |
| BlogActions.CreateOfParsed | app/actions/BlogActions.ts:51-54 | once the schema accepts the form, create stores the setters' output when the document validators find nothing, and otherwise throws exactly their errors as a validation failure |
| BlogActions.PrepareUpdate | app/actions/BlogActions.ts:77-82 | a schema failure is thrown as a ZodError; a document ready to write has the stored shape and clean keywords |
| BlogActions.UpdateOfParsed | app/actions/BlogActions.ts:77-82 | once the schema accepts the form, update's outcome depends only on the parsed post and the date cast |
| BlogActions.ResubmitKeepsFields | app/actions/BlogActions.ts:77-82 | resubmitting a stored post's flattened record unchanged to update yields its stored fields and its stored publication date again |
| BlogActions.UpdateRedates | app/actions/BlogActions.ts:77-82 | without a `publishedAt` in the form, every accepted update dates the post `now` |
| BlogActions.PostStore.constructor | models/Blog.ts:12-96 | the collection starts empty with an empty path log |
| BlogActions.PostStore.Create | app/actions/BlogActions.ts:46-68 | a rejection returns the classified error and changes nothing; a taken slug returns the duplicate message and changes nothing; otherwise one new document is stored under a fresh id, `/admin/dashboard/blog` and `/blog` are revalidated, and the stored slug is returned |
| BlogActions.PostStore.Insert | app/actions/BlogActions.ts:54-64 | the insert keeps slugs unique and the store invariant, with the same three outcomes |
| BlogActions.PostStore.Update | app/actions/BlogActions.ts:71-94 | a rejection changes nothing; a missing id returns "Post not found" and revalidates nothing; a taken slug returns the duplicate message; otherwise the document's fields and date are replaced, `updatedAt` is stamped, and the admin list and `/blog/<slug>` are revalidated |
| BlogActions.PostStore.Replace | app/actions/BlogActions.ts:80-90 | the replacement keeps id, creation time, unique slugs and the store invariant |
| BlogActions.PostStore.Delete | app/actions/BlogActions.ts:161-180 | a missing id returns "Post not found" and changes nothing; otherwise exactly that document is removed and the admin list, `/blog` and `/blog/<its slug>` are revalidated |
| BlogActions.PostStore.GetBySlug | app/actions/BlogActions.ts:191-207 | a document is found iff one holds the lower-cased slug, published or not, and it is that document |
| BlogActions.PostStore.GetById | app/actions/BlogActions.ts:123-152 | a record is returned iff the id is stored, and it is that document flattened, its dates included |
| BlogActions.PostStore.Scan | app/admin/dashboard/blog/page.tsx:10 | the scan lists every stored document exactly once |
| BlogActions.ScanMap | app/admin/dashboard/blog/page.tsx:10 | walking the collection yields as many documents as it holds, each stored one, with no id twice |
| BlogForm.Collapse | components/admin/BlogForm.tsx:85 | the collapse is empty iff its input is, and starts with a dash iff the input starts outside a-z and 0-9 |
| BlogForm.CollapseShape | components/admin/BlogForm.tsx:85 | the collapse uses only a-z, 0-9 and `-`, and never has a double dash |
| BlogForm.CollapseAppend | components/admin/BlogForm.tsx:85 | text ending in a letter or digit collapses on its own: what follows collapses independently and is appended |
| BlogForm.CollapseRun | components/admin/BlogForm.tsx:85 | a non-empty run of other characters before a letter, a digit or the end becomes exactly one dash |
| BlogForm.CollapsePlacesDashes | components/admin/BlogForm.tsx:85 | a maximal run of other characters between two stretches of text becomes exactly one dash there, and the text on either side collapses independently |
| BlogForm.CollapseOfSlugChars | components/admin/BlogForm.tsx:85 | letters and digits alone collapse to themselves |
| BlogForm.LeadingDashesDropped | components/admin/BlogForm.tsx:85 | removing leading dashes removes exactly them: a suffix remains that does not start with a dash |
| BlogForm.TrailingDashesDropped | components/admin/BlogForm.tsx:85 | removing trailing dashes removes exactly them: a prefix remains that does not end with a dash |
| BlogForm.GenerateSlug | components/admin/BlogForm.tsx:82-86 | the slug uses only a-z, 0-9 and `-`, never starts or ends with a dash and never contains `--` |
| BlogForm.SlugIsFixpoint | components/admin/BlogForm.tsx:82-86 | a well-formed slug is its own slug |
| BlogForm.GenerateSlugIdempotent | components/admin/BlogForm.tsx:82-86 | generating a slug twice is the same as once |
| BlogForm.GenerateSlugKeepsAlnums | components/admin/BlogForm.tsx:82-86 | the slug keeps exactly the letters and digits of the lower-cased text, in order |
| BlogForm.GenerateSlugJoinsWords | components/admin/BlogForm.tsx:82-86 | two words of letters and digits separated by a run of other characters give the two words joined by one dash |
| BlogForm.StripTags | components/admin/BlogForm.tsx:90 | after tag stripping no `<` is left |
| BlogForm.StripTagsOfPlain | components/admin/BlogForm.tsx:90 | text without `<` is left unchanged |
| BlogForm.StripTagsKeepsPlainPrefix | components/admin/BlogForm.tsx:90 | text before the first `<` is kept unchanged in front of the stripped rest |
| BlogForm.AfterTagSkips | components/admin/BlogForm.tsx:90 | after a `<`, everything up to and including the first `>` is skipped |
| BlogForm.StripTagsRemovesTag | components/admin/BlogForm.tsx:90 | a `<` with everything up to the next `>` goes and the text around it is kept; with no `>` after it, everything from the `<` to the end goes |
| BlogForm.PiecesAreWords | components/admin/BlogForm.tsx:91 | for trimmed non-empty text, splitting on white-space runs gives as many pieces as there are words |
| BlogForm.ReadingTime | components/admin/BlogForm.tsx:88-93 | the minutes are the ceiling of the piece count over 200, and at least one |
| BlogForm.ReadingTimeOfWords | components/admin/BlogForm.tsx:88-93 | text without words reads in one minute; otherwise the minutes are the ceiling of the word count over 200 |
| BlogForm.Apply | components/admin/BlogForm.tsx:103-107 | a change sets exactly the named input or checkbox and leaves every other field as it was |
| BlogForm.ApplyWatched | components/admin/BlogForm.tsx:103-112 | after a change, the title, slug and author are the new value when that input changed and the old one otherwise |
| BlogForm.FormState.constructor | components/admin/BlogForm.tsx:54-76 | the state starts from the initial data or the defaults; the slug counts as customised iff initial data was given; the author is "Admin" iff there is no initial data or its author is "Admin" |
| BlogForm.FormState.HandleChange | components/admin/BlogForm.tsx:95-113 | the named field takes the new value; a title edit while the slug is not customised also sets the slug to the title's slug; the flags are unchanged |
| BlogForm.FormState.EditSlug | components/admin/BlogForm.tsx:187-193 | typing in the slug marks it customised and sets it to the typed text |
| BlogForm.FormState.ResetSlug | components/admin/BlogForm.tsx:196-202 | the reset clears the customised flag and sets the slug to the title's slug |
| BlogForm.FormState.ToggleAuthor | components/admin/BlogForm.tsx:254-262 | the toggle flips the admin flag and sets the author to "Admin" when switching to admin, or to `""` otherwise |
| BlogForm.FormState.SetContent | components/admin/BlogForm.tsx:214-219 | the editor's change sets the content only |
| BlogForm.FormReads | components/admin/BlogForm.tsx:25-40 | the submitted record holds the form's fields and never carries `isSearchable`, `isFeatured` or `publishedAt` |
| BlogForm.SubmissionNeverIndexed | components/admin/BlogForm.tsx:39 | the normaliser reads both index flags as unchecked, whatever `noIndex` says, so every accepted submission is neither searchable nor featured |
| BlogForm.TransformEditForm | app/actions/BlogActions.ts:15-43 | normalising an unchanged edit form gives the stored fields back with fallbacks refilled and both index flags false |
| BlogForm.EditSaveUnindexes | app/actions/BlogActions.ts:36-41 | saving a stored post unchanged from the editor keeps every field except the index controls, which become not searchable and not featured |
| Listings.InsertDesc | app/blog/page.tsx:8 | inserting into a newest-first list keeps it sorted and adds exactly that document |
| Listings.SortDesc | app/blog/page.tsx:8 | the sort is a permutation of its input, ordered newest first |
| Listings.Published | app/blog/page.tsx:8 | the published filter keeps exactly the published documents, each as often as stored |
| Listings.PublishedBlogsAreThePublished | app/blog/page.tsx:6-10 | the journal lists every published post, only published posts, ordered by publication date descending |
| Listings.Journal | app/blog/page.tsx:27-36 | the story count is the number of published posts, and the empty state shows iff none is published |
| Listings.TakeOfSorted | app/page.tsx:15 | the first n of a sorted list are a prefix of it, sorted, as many as exist up to n |
| Listings.TakeKeepsNewest | app/page.tsx:15 | no document the limit leaves out of a sorted list is newer than one it keeps |
| Listings.LatestPostsAreTheNewest | app/page.tsx:13-17 | the home page shows at most three posts, all published and newest first, exactly three when three exist, and no omitted published post is newer than a shown one |
| Listings.LatestPostsAreStored | app/page.tsx:13-17 | the home page's posts are the head of the journal's sorted list of published posts, each shown at most as often as it is stored |
| Listings.AdminBlogs | app/admin/dashboard/blog/page.tsx:10 | the admin list is every post, published or not, each as often as stored, newest creation first; it is empty iff the collection is |
| Listings.StatusLabel | app/admin/dashboard/blog/page.tsx:96-102 | a row reads "Live" iff the post is published, else "Draft" |
| Listings.LiveCount | app/admin/dashboard/blog/page.tsx:149 | the live count never exceeds the list length |
| Listings.PublishedCount | app/admin/dashboard/blog/page.tsx:149 | the filtered list's length is the live count |
| Listings.LiveCountOfInsert | app/admin/dashboard/blog/page.tsx:10 | inserting a document adds one to the live count iff it is published |
| Listings.LiveCountOfSort | app/admin/dashboard/blog/page.tsx:10 | sorting keeps the live count |
| Listings.AdminFooter | app/admin/dashboard/blog/page.tsx:147-149 | "Total" is the list length and "Live" the number of published rows |
| Listings.AdminFooterCountsStore | app/admin/dashboard/blog/page.tsx:147-149 | the footer of the sorted admin list counts the collection itself |
| Listings.DashboardStats | app/admin/dashboard/page.tsx:15-28 | `total` is the number of posts and `live` the number of published ones; drafts = total - live, hence between 0 and total; `latest` is the head of the admin list of exactly five posts, or all when fewer exist: stored posts, each at most as often as stored, newest creation first, and no post left out was created later than one shown |

## Left out

- Database and framework plumbing is not modelled: `connectDB`, the development-mode model cache
  bust, and the catch branches for connection failures and malformed ids. These are I/O that the
  model cannot observe.
- `JSON.parse(JSON.stringify(...))` is taken as the identity. Dates reach the form as date values
  rather than ISO strings that Mongoose would cast back to the same instant, and the ObjectId is
  rendered as a decimal number rather than hex.
- BlogActions.Flatten: of the spread document it carries the dates, the flattened fields and the
  id, but not the nested `seo` and `indexControl` objects. The normaliser rebuilds both
  objects from the flat fields, so neither reaches a parse.
- The `??` and `?.` defaults of the flattening never fire and are not modelled. A stored document
  always has its `seo` and `indexControl` objects and its flags, because the schema fills them in.
- BlogActions.Flatten: `isSearchable ?? true` and `isFeatured ?? false` are modelled only for
  documents that carry both flags, which every document in this model does.
- Mongoose's own defaults (`author`, `isPublished`, `isSearchable`, `isFeatured`, `publishedAt`)
  are not modelled, because the schema's output always supplies those fields before Mongoose
  sees them.
- BlogModel.CreateErrors: the date-cast failure is listed last, after the validators' errors.
  Mongoose records a cast failure while it builds the document, so in its message that error
  most likely comes first. The order matters only for a `publishedAt` that does not cast, which
  the create form never sends.
- `console.error` logging is left out.
- The error branch of delete (`e.message || "Failed to delete the post"`) is left out, because
  it is reached only through database failures.
- Sort tie-breaking is left out. The order of documents with equal dates is unspecified, so only
  sortedness and permutation are stated.
- Text.Lower: only the ASCII letters A-Z are lower-cased. Other Unicode case mappings of
  `toLowerCase` are not modelled.
- Lengths count Dafny characters, not UTF-16 code units.
- Browser I/O is not modelled:
  - the `FileReader` image upload;
  - the rich-text editor beyond its change callback;
  - the character-count display;
  - toasts and router navigation.
- React's batching and stale closures are not modelled. Each handler is taken to run atomically
  on the current state.
- BlogForm.FormState.HandleChange requires a slug edit to go through `EditSlug`, and an author
  edit to happen only while the author input is shown (not admin). The form renders the inputs
  that way.
- Concurrency between actions and races on the unique index are not modelled.
