/**
 * The admin editor of components/admin/BlogForm.tsx: the slug generator, the reading-time
 * estimate, the form record with its initial state, the state the editor keeps (form data,
 * slug customisation, author mode) and the record it submits to the actions.
 */
module BlogForm {
  import opened Wrappers
  import opened Text
  import opened Validation
  import opened BlogModel
  import opened BlogActions

  // ---------------------------------------------------------------------------------------
  // generateSlug
  // ---------------------------------------------------------------------------------------

  /** The characters the slug pattern `[a-z0-9]` keeps. */
  predicate IsSlugChar(c: char) {
    'a' <= c <= 'z' || '0' <= c <= '9'
  }

  /** Only `a-z`, `0-9` and `-`. */
  predicate SlugAlphabet(s: string) {
    forall i :: 0 <= i < |s| ==> IsSlugChar(s[i]) || s[i] == '-'
  }

  /** No two dashes in a row. */
  predicate NoDoubleDash(s: string) {
    forall i :: 0 <= i < |s| - 1 ==> !(s[i] == '-' && s[i + 1] == '-')
  }

  /** A URL-safe slug: the slug alphabet, no dash at either end, no two dashes in a row. */
  predicate IsSlug(s: string) {
    SlugAlphabet(s) && NoDoubleDash(s) && (s != [] ==> s[0] != '-' && s[|s| - 1] != '-')
  }

  /** Drops the leading characters outside `[a-z0-9]`. */
  function DropNonSlug(s: string): (r: string)
    ensures |r| <= |s| && r == s[|s| - |r|..]
    ensures r == [] || IsSlugChar(r[0])
  {
    if s != [] && !IsSlugChar(s[0]) then
      var r := DropNonSlug(s[1..]);
      assert s[1..][|s| - 1 - |r|..] == s[|s| - |r|..];
      r
    else s
  }

  /** `.replace(/[^a-z0-9]+/g, "-")`: every maximal run of other characters becomes one dash. */
  function Collapse(s: string): (r: string)
    ensures s == [] <==> r == []
    ensures s != [] ==> (r[0] == '-' <==> !IsSlugChar(s[0]))
    decreases |s|
  {
    if s == [] then []
    else if IsSlugChar(s[0]) then [s[0]] + Collapse(s[1..])
    else ['-'] + Collapse(DropNonSlug(s[1..]))
  }

  /** What the collapse yields uses only the slug alphabet and never has two dashes in a row. */
  lemma {:induction false} CollapseShape(s: string)
    ensures SlugAlphabet(Collapse(s)) && NoDoubleDash(Collapse(s))
    decreases |s|
  {
    if s != [] {
      var t := if IsSlugChar(s[0]) then s[1..] else DropNonSlug(s[1..]);
      var h: string := if IsSlugChar(s[0]) then [s[0]] else ['-'];
      CollapseShape(t);
      var c := Collapse(t);
      var r := h + c;
      assert Collapse(s) == r;
      forall i | 0 <= i < |r| ensures IsSlugChar(r[i]) || r[i] == '-' {
        if i > 0 { assert r[i] == c[i - 1]; }
      }
      forall i | 0 <= i < |r| - 1 ensures !(r[i] == '-' && r[i + 1] == '-') {
        if i > 0 { assert r[i] == c[i - 1] && r[i + 1] == c[i]; }
        else { assert r[1] == c[0]; }
      }
    }
  }

  /** `.replace(/^-+/, "")`. */
  function DropLeadingDashes(s: string): (r: string)
    ensures |r| <= |s|
  {
    if s != [] && s[0] == '-' then DropLeadingDashes(s[1..]) else s
  }

  /** Exactly the leading dashes go: what remains is a suffix that does not start with one. */
  lemma {:induction false} LeadingDashesDropped(s: string)
    ensures var r := DropLeadingDashes(s);
      && r == s[|s| - |r|..]
      && (r == [] || r[0] != '-')
      && (forall i :: 0 <= i < |s| - |r| ==> s[i] == '-')
  {
    if s != [] && s[0] == '-' {
      LeadingDashesDropped(s[1..]);
      var r := DropLeadingDashes(s);
      assert s[1..][|s| - 1 - |r|..] == s[|s| - |r|..];
      forall i | 0 <= i < |s| - |r| ensures s[i] == '-' {
        if i > 0 { assert s[i] == s[1..][i - 1]; }
      }
    }
  }

  /** `.replace(/-+$/, "")`. */
  function DropTrailingDashes(s: string): (r: string)
    ensures |r| <= |s|
  {
    if s != [] && s[|s| - 1] == '-' then DropTrailingDashes(s[..|s| - 1]) else s
  }

  /** Exactly the trailing dashes go: what remains is a prefix that does not end with one. */
  lemma {:induction false} TrailingDashesDropped(s: string)
    ensures var r := DropTrailingDashes(s);
      && r == s[..|r|]
      && (r == [] || r[|r| - 1] != '-')
      && (forall i :: |r| <= i < |s| ==> s[i] == '-')
  {
    if s != [] && s[|s| - 1] == '-' {
      var init := s[..|s| - 1];
      TrailingDashesDropped(init);
      var r := DropTrailingDashes(s);
      assert init[..|r|] == s[..|r|];
      forall i | |r| <= i < |s| ensures s[i] == '-' {
        if i < |s| - 1 { assert s[i] == init[i]; }
      }
    }
  }

  /** A contiguous piece of a string keeps its alphabet and its lack of double dashes. */
  lemma SliceKeepsShape(s: string, lo: int, hi: int)
    requires 0 <= lo <= hi <= |s|
    requires SlugAlphabet(s) && NoDoubleDash(s)
    ensures SlugAlphabet(s[lo..hi]) && NoDoubleDash(s[lo..hi])
  {
    var t := s[lo..hi];
    forall i | 0 <= i < |t| ensures IsSlugChar(t[i]) || t[i] == '-' {
      assert t[i] == s[lo + i];
    }
    forall i | 0 <= i < |t| - 1 ensures !(t[i] == '-' && t[i + 1] == '-') {
      assert t[i] == s[lo + i] && t[i + 1] == s[lo + i + 1];
    }
  }

  /** A run of characters outside `[a-z0-9]`. */
  predicate NonSlugRun(w: string) {
    forall i :: 0 <= i < |w| ==> !IsSlugChar(w[i])
  }

  /** Skipping non-slug characters stops at the first slug character, so what follows it is untouched. */
  lemma {:induction false} DropNonSlugAppend(t: string, x: string)
    requires t != [] && IsSlugChar(t[|t| - 1])
    ensures DropNonSlug(t + x) == DropNonSlug(t) + x
    ensures DropNonSlug(t) != [] && IsSlugChar(DropNonSlug(t)[|DropNonSlug(t)| - 1])
    decreases |t|
  {
    if !IsSlugChar(t[0]) {
      var u := t[1..];
      HeadAndTail(t, x);
      LastOfTail(t);
      DropNonSlugAppend(u, x);
      assert DropNonSlug(t + x) == DropNonSlug(u + x);
    } else {
      HeadAndTail(t, x);
    }
  }

  /** Proof helper: dropping the first character keeps the last one. */
  lemma LastOfTail(t: string)
    requires |t| >= 2
    ensures t[1..][|t| - 2] == t[|t| - 1]
  {
  }

  /** Skipping a whole run of non-slug characters lands on what follows it. */
  lemma {:induction false} DropNonSlugRun(w: string, b: string)
    requires NonSlugRun(w)
    requires b == [] || IsSlugChar(b[0])
    ensures DropNonSlug(w + b) == b
    decreases |w|
  {
    if w == [] {
      assert w + b == b;
    } else {
      assert (w + b)[1..] == w[1..] + b;
      assert NonSlugRun(w[1..]) by {
        forall i | 0 <= i < |w| - 1 ensures !IsSlugChar(w[1..][i]) {
          assert w[1..][i] == w[i + 1];
        }
      }
      DropNonSlugRun(w[1..], b);
    }
  }

  /** Proof helper: one unfolding of `Collapse`. */
  lemma CollapseUnfold(s: string)
    requires s != []
    ensures Collapse(s) == if IsSlugChar(s[0]) then [s[0]] + Collapse(s[1..]) else ['-'] + Collapse(DropNonSlug(s[1..]))
  {
  }

  /** Text ending in a slug character collapses on its own: the collapse of what follows is appended. */
  lemma {:induction false} CollapseAppend(a: string, x: string)
    requires a != [] && IsSlugChar(a[|a| - 1])
    ensures Collapse(a + x) == Collapse(a) + Collapse(x)
    decreases |a|
  {
    if |a| == 1 {
      CollapseAppendOne(a, x);
    } else {
      var t := a[1..];
      assert t[|t| - 1] == a[|a| - 1];
      if IsSlugChar(a[0]) {
        CollapseAppend(t, x);
        CollapseAppendSlugHead(a, x);
      } else {
        DropNonSlugAppend(t, x);
        CollapseAppend(DropNonSlug(t), x);
        CollapseAppendDashHead(a, x);
      }
    }
  }

  /** Proof helper: the head and tail of a concatenation with a non-empty front. */
  lemma HeadAndTail(a: string, x: string)
    requires a != []
    ensures (a + x)[0] == a[0] && (a + x)[1..] == a[1..] + x
  {
  }

  /** Proof helper: concatenation is associative. */
  lemma ConcatAssoc(p: string, q: string, r: string)
    ensures p + (q + r) == (p + q) + r
  {
  }

  /** Proof helper for `CollapseAppend`: a single slug character in front. */
  lemma CollapseAppendOne(a: string, x: string)
    requires |a| == 1 && IsSlugChar(a[0])
    ensures Collapse(a + x) == Collapse(a) + Collapse(x)
  {
    assert (a + x)[1..] == x;
    assert a[1..] == [];
  }

  /** Proof helper for `CollapseAppend`: the step past a leading slug character. */
  lemma CollapseAppendSlugHead(a: string, x: string)
    requires |a| >= 2 && IsSlugChar(a[0])
    requires Collapse(a[1..] + x) == Collapse(a[1..]) + Collapse(x)
    ensures Collapse(a + x) == Collapse(a) + Collapse(x)
  {
    var t, h := a[1..], [a[0]];
    HeadAndTail(a, x);
    assert Collapse(a + x) == h + Collapse(t + x);
    assert Collapse(a) == h + Collapse(t);
    ConcatAssoc(h, Collapse(t), Collapse(x));
  }

  /** Proof helper for `CollapseAppend`: the step past a leading run that becomes a dash. */
  lemma CollapseAppendDashHead(a: string, x: string)
    requires |a| >= 2 && !IsSlugChar(a[0])
    requires DropNonSlug(a[1..] + x) == DropNonSlug(a[1..]) + x
    requires Collapse(DropNonSlug(a[1..]) + x) == Collapse(DropNonSlug(a[1..])) + Collapse(x)
    ensures Collapse(a + x) == Collapse(a) + Collapse(x)
  {
    var u, h := DropNonSlug(a[1..]), ['-'];
    HeadAndTail(a, x);
    assert Collapse(a + x) == h + Collapse(u + x);
    assert Collapse(a) == h + Collapse(u);
    ConcatAssoc(h, Collapse(u), Collapse(x));
  }

  /** A run of non-slug characters in front of a slug character, or of the end, collapses to one dash. */
  lemma CollapseRun(w: string, b: string)
    requires w != [] && NonSlugRun(w)
    requires b == [] || IsSlugChar(b[0])
    ensures Collapse(w + b) == ['-'] + Collapse(b)
  {
    assert (w + b)[0] == w[0];
    assert (w + b)[1..] == w[1..] + b;
    assert NonSlugRun(w[1..]) by {
      forall i | 0 <= i < |w| - 1 ensures !IsSlugChar(w[1..][i]) {
        assert w[1..][i] == w[i + 1];
      }
    }
    DropNonSlugRun(w[1..], b);
  }

  /**
   * Where the dashes go: a maximal run of characters outside `[a-z0-9]` between two slug
   * characters (or an end of the text) becomes exactly one dash, and the text on either side
   * collapses independently.
   */
  lemma CollapsePlacesDashes(a: string, w: string, b: string)
    requires a == [] || IsSlugChar(a[|a| - 1])
    requires w != [] && NonSlugRun(w)
    requires b == [] || IsSlugChar(b[0])
    ensures Collapse(a + w + b) == Collapse(a) + "-" + Collapse(b)
  {
    CollapseRun(w, b);
    ConcatAssoc(a, w, b);
    ConcatAssoc(Collapse(a), "-", Collapse(b));
    if a == [] {
      assert a + (w + b) == w + b;
    } else {
      CollapseAppend(a, w + b);
    }
  }

  /** Text made only of slug characters collapses to itself. */
  lemma {:induction false} CollapseOfSlugChars(s: string)
    requires forall i :: 0 <= i < |s| ==> IsSlugChar(s[i])
    ensures Collapse(s) == s
    decreases |s|
  {
    if s != [] {
      assert forall i :: 0 <= i < |s| - 1 ==> s[1..][i] == s[i + 1];
      CollapseOfSlugChars(s[1..]);
      assert [s[0]] + s[1..] == s;
    }
  }

  /** `generateSlug`: lower-case, collapse every run outside `[a-z0-9]` to a dash, strip edge dashes. */
  function GenerateSlug(text: string): (r: string)
    ensures IsSlug(r)
  {
    var c := Collapse(Lower(text));
    CollapseShape(Lower(text));
    var a := DropLeadingDashes(c);
    LeadingDashesDropped(c);
    SliceKeepsShape(c, |c| - |a|, |c|);
    var b := DropTrailingDashes(a);
    TrailingDashesDropped(a);
    SliceKeepsShape(a, 0, |b|);
    assert b != [] ==> b[0] == a[0];
    b
  }

  /** On a slug the collapsing step changes nothing. */
  lemma {:induction false} CollapseOfSlug(s: string)
    requires SlugAlphabet(s) && NoDoubleDash(s)
    ensures Collapse(s) == s
    decreases |s|
  {
    if s != [] {
      var t := s[1..];
      SliceKeepsShape(s, 1, |s|);
      CollapseOfSlug(t);
      assert [s[0]] + t == s;
      if IsSlugChar(s[0]) {
        assert Collapse(s) == [s[0]] + Collapse(t);
      } else {
        assert s[0] == '-';
        if t != [] {
          assert t[0] == s[1] && s[1] != '-';
          assert IsSlugChar(t[0]);
        }
        assert DropNonSlug(t) == t;
        assert Collapse(s) == ['-'] + Collapse(t);
      }
    }
  }

  /** A slug is its own slug. */
  lemma SlugIsFixpoint(s: string)
    requires IsSlug(s)
    ensures GenerateSlug(s) == s
  {
    assert IsLower(s);
    LowerOfLower(s);
    CollapseOfSlug(s);
  }

  /** `generateSlug` is idempotent. */
  lemma GenerateSlugIdempotent(text: string)
    ensures GenerateSlug(GenerateSlug(text)) == GenerateSlug(text)
  {
    SlugIsFixpoint(GenerateSlug(text));
  }

  /** A non-empty run of letters and digits. */
  predicate SlugWord(s: string) {
    s != [] && forall i :: 0 <= i < |s| ==> IsSlugChar(s[i])
  }

  /**
   * Two words of letters and digits separated by a run of other characters (spaces,
   * punctuation) become the two words joined by exactly one dash.
   */
  lemma GenerateSlugJoinsWords(text: string, a: string, w: string, b: string)
    requires Lower(text) == a + w + b
    requires SlugWord(a) && SlugWord(b)
    requires w != [] && NonSlugRun(w)
    ensures GenerateSlug(text) == a + "-" + b
  {
    CollapsePlacesDashes(a, w, b);
    CollapseOfSlugChars(a);
    CollapseOfSlugChars(b);
    var c := a + "-" + b;
    assert c[0] == a[0] && c[|c| - 1] == b[|b| - 1];
    assert DropLeadingDashes(c) == c;
    assert DropTrailingDashes(c) == c;
  }

  /** The letters and digits of a string, in order. */
  function Alnums(s: string): (r: string)
    ensures forall i :: 0 <= i < |r| ==> IsSlugChar(r[i])
  {
    if s == [] then []
    else if IsSlugChar(s[0]) then [s[0]] + Alnums(s[1..])
    else Alnums(s[1..])
  }

  lemma {:induction false} AlnumsOfConcat(a: string, b: string)
    ensures Alnums(a + b) == Alnums(a) + Alnums(b)
  {
    if a != [] {
      assert (a + b)[1..] == a[1..] + b;
      AlnumsOfConcat(a[1..], b);
    } else {
      assert a + b == b;
    }
  }

  /** What `DropNonSlug` drops holds no letter or digit. */
  lemma {:induction false} AlnumsAfterDrop(s: string)
    ensures Alnums(DropNonSlug(s)) == Alnums(s)
  {
    if s != [] && !IsSlugChar(s[0]) {
      AlnumsAfterDrop(s[1..]);
    }
  }

  lemma {:induction false} AlnumsOfCollapse(s: string)
    ensures Alnums(Collapse(s)) == Alnums(s)
    decreases |s|
  {
    if s != [] {
      if IsSlugChar(s[0]) {
        AlnumsOfCollapse(s[1..]);
        AlnumsOfConcat([s[0]], Collapse(s[1..]));
      } else {
        AlnumsAfterDrop(s[1..]);
        AlnumsOfCollapse(DropNonSlug(s[1..]));
        AlnumsOfConcat(['-'], Collapse(DropNonSlug(s[1..])));
      }
    }
  }

  /** Leading dashes hold no letter or digit. */
  lemma {:induction false} AlnumsAfterLeadingDashes(s: string)
    ensures Alnums(DropLeadingDashes(s)) == Alnums(s)
  {
    if s != [] && s[0] == '-' {
      AlnumsAfterLeadingDashes(s[1..]);
    }
  }

  /** Trailing dashes hold no letter or digit. */
  lemma {:induction false} AlnumsBeforeTrailingDashes(s: string)
    ensures Alnums(DropTrailingDashes(s)) == Alnums(s)
    decreases |s|
  {
    if s != [] && s[|s| - 1] == '-' {
      var init := s[..|s| - 1];
      AlnumsBeforeTrailingDashes(init);
      assert s == init + ['-'];
      AlnumsOfConcat(init, ['-']);
    }
  }

  /** The slug keeps every letter and digit of the lower-cased title, in order, and adds none. */
  lemma GenerateSlugKeepsAlnums(text: string)
    ensures Alnums(GenerateSlug(text)) == Alnums(Lower(text))
  {
    var c := Collapse(Lower(text));
    AlnumsOfCollapse(Lower(text));
    AlnumsAfterLeadingDashes(c);
    AlnumsBeforeTrailingDashes(DropLeadingDashes(c));
  }

  // ---------------------------------------------------------------------------------------
  // getReadingTime
  // ---------------------------------------------------------------------------------------

  /** After a `<`: what follows the next `>`, or nothing when no `>` follows. */
  function AfterTag(s: string): (r: string)
    ensures |r| <= |s| && r == s[|s| - |r|..]
    ensures '>' !in s ==> r == []
  {
    if s == [] then []
    else if s[0] == '>' then s[1..]
    else AfterTag(s[1..])
  }

  /** `.replace(/<[^>]*>?/gm, "")`: each `<` goes, with everything up to and including the next `>` (or to the end). */
  function StripTags(s: string): (r: string)
    ensures |r| <= |s|
    ensures '<' !in r
    decreases |s|
  {
    if s == [] then []
    else if s[0] == '<' then StripTags(AfterTag(s[1..]))
    else [s[0]] + StripTags(s[1..])
  }

  /** Text without `<` is left alone; in particular stripping twice strips nothing more. */
  lemma {:induction false} StripTagsOfPlain(s: string)
    requires '<' !in s
    ensures StripTags(s) == s
  {
    if s != [] {
      StripTagsOfPlain(s[1..]);
      assert [s[0]] + s[1..] == s;
    }
  }

  /** After a `<`, everything up to and including the first `>` is skipped. */
  lemma {:induction false} AfterTagSkips(t: string, b: string)
    requires '>' !in t
    ensures AfterTag(t + ">" + b) == b
  {
    if t == [] {
      assert t + ">" + b == ">" + b;
    } else {
      assert (t + ">" + b)[0] == t[0] && (t + ">" + b)[1..] == t[1..] + ">" + b;
      AfterTagSkips(t[1..], b);
    }
  }

  /** Text before the first `<` is kept as it is. */
  lemma {:induction false} StripTagsKeepsPlainPrefix(p: string, x: string)
    requires '<' !in p
    ensures StripTags(p + x) == p + StripTags(x)
  {
    if p == [] {
      assert p + x == x;
    } else {
      HeadAndTail(p, x);
      StripTagsKeepsPlainPrefix(p[1..], x);
      ConcatAssoc([p[0]], p[1..], StripTags(x));
      assert [p[0]] + p[1..] == p;
    }
  }

  /**
   * What the pattern `<[^>]*>?` removes: a `<` with everything up to and including the next
   * `>`, or, when no `>` follows, everything to the end; the text around it is kept.
   */
  lemma StripTagsRemovesTag(p: string, t: string, b: string)
    requires '<' !in p && '>' !in t
    ensures StripTags(p + "<" + t + ">" + b) == p + StripTags(b)
    ensures StripTags(p + "<" + t) == p
  {
    var closed := "<" + t + ">" + b;
    ConcatAssoc(p, "<" + t, ">" + b);
    ConcatAssoc(p, "<", t);
    ConcatAssoc("<", t, ">" + b);
    ConcatAssoc(p + "<", t, ">" + b);
    assert p + "<" + t + ">" + b == p + closed;
    StripTagsKeepsPlainPrefix(p, closed);
    StripTagsOfClosedTag(t, b);
    var open := "<" + t;
    StripTagsKeepsPlainPrefix(p, open);
    StripTagsOfOpenTag(t);
  }

  /** Proof helper for `StripTagsRemovesTag`: a closed tag at the front goes. */
  lemma StripTagsOfClosedTag(t: string, b: string)
    requires '>' !in t
    ensures StripTags("<" + t + ">" + b) == StripTags(b)
  {
    var closed := "<" + t + ">" + b;
    assert closed[0] == '<' && closed[1..] == t + ">" + b;
    AfterTagSkips(t, b);
  }

  /** Proof helper for `StripTagsRemovesTag`: an unclosed tag takes the rest of the text. */
  lemma StripTagsOfOpenTag(t: string)
    requires '>' !in t
    ensures StripTags("<" + t) == []
  {
    var open := "<" + t;
    assert open[0] == '<' && open[1..] == t;
  }

  /** Drops the leading characters that are not white space. */
  function DropWord(s: string): (r: string)
    ensures |r| <= |s| && r == s[|s| - |r|..]
    ensures r == [] || IsSpace(r[0])
  {
    if s != [] && !IsSpace(s[0]) then
      var r := DropWord(s[1..]);
      assert s[1..][|s| - 1 - |r|..] == s[|s| - |r|..];
      r
    else s
  }

  /** `t.split(/\s+/).length`: one piece, and one more after each maximal run of white space. */
  function PieceCount(t: string): (n: nat)
    ensures n >= 1
    decreases |t|
  {
    if t == [] then 1
    else if IsSpace(t[0]) then 1 + PieceCount(TrimStart(t[1..]))
    else PieceCount(t[1..])
  }

  /** The number of words: maximal runs of characters other than white space. */
  function WordCount(t: string): nat
    decreases |t|
  {
    if t == [] then 0
    else if IsSpace(t[0]) then WordCount(t[1..])
    else 1 + WordCount(DropWord(t[1..]))
  }

  lemma {:induction false} PieceCountSkipsWord(t: string)
    ensures PieceCount(DropWord(t)) == PieceCount(t)
  {
    if t != [] && !IsSpace(t[0]) {
      PieceCountSkipsWord(t[1..]);
    }
  }

  lemma {:induction false} WordCountSkipsSpace(t: string)
    ensures WordCount(TrimStart(t)) == WordCount(t)
  {
    if t != [] && IsSpace(t[0]) {
      WordCountSkipsSpace(t[1..]);
    }
  }

  /** Past a gap of white space that ends before the text does, trimmed text with one piece fewer and as many words remains. */
  lemma AfterGap(rest: string)
    requires rest != [] && IsSpace(rest[0]) && !IsSpace(rest[|rest| - 1])
    ensures var tail := TrimStart(rest[1..]);
      && tail != [] && IsTrimmed(tail) && |tail| < |rest|
      && PieceCount(rest) == 1 + PieceCount(tail)
      && WordCount(rest) == WordCount(tail)
  {
    var after := rest[1..];
    var tail := TrimStart(after);
    assert |rest| >= 2;
    assert after[|after| - 1] == rest[|rest| - 1];
    if tail == [] {
      assert false;
    }
    assert tail[|tail| - 1] == after[|after| - 1];
    WordCountSkipsSpace(after);
  }

  /** Proof helper: text starting with a word counts that word and what follows it. */
  lemma WordCountOfWordStart(t: string)
    requires t != [] && !IsSpace(t[0])
    ensures WordCount(t) == 1 + WordCount(DropWord(t))
  {
    assert DropWord(t) == DropWord(t[1..]);
  }

  /** On trimmed, non-empty text the pieces of the white-space split are exactly the words. */
  lemma {:induction false} PiecesAreWords(t: string)
    requires t != [] && IsTrimmed(t)
    ensures PieceCount(t) == WordCount(t)
    decreases |t|
  {
    if DropWord(t) == [] {
      SingleWord(t);
    } else {
      var tail := WordGapStep(t);
      PiecesAreWords(tail);
    }
  }

  /** Proof helper for `PiecesAreWords`: text that is one word is one piece. */
  lemma SingleWord(t: string)
    requires t != [] && !IsSpace(t[0]) && DropWord(t) == []
    ensures PieceCount(t) == 1 && WordCount(t) == 1
  {
    PieceCountSkipsWord(t);
    WordCountOfWordStart(t);
  }

  /** Proof helper for `PiecesAreWords`: past the first word and the gap after it, trimmed text with one piece and one word fewer remains. */
  lemma WordGapStep(t: string) returns (tail: string)
    requires t != [] && IsTrimmed(t) && DropWord(t) != []
    ensures tail == TrimStart(DropWord(t)[1..])
    ensures tail != [] && IsTrimmed(tail) && |tail| < |t|
    ensures PieceCount(t) == 1 + PieceCount(tail) && WordCount(t) == 1 + WordCount(tail)
  {
    PieceCountSkipsWord(t);
    WordCountOfWordStart(t);
    var rest := DropWord(t);
    tail := TrimStart(rest[1..]);
    assert rest[|rest| - 1] == t[|t| - 1];
    AfterGap(rest);
  }

  /** `getReadingTime`: the white-space pieces of the tag-free, trimmed text, 200 a minute, rounded up. */
  function ReadingTime(text: string): (minutes: int)
    ensures minutes >= 1
    ensures (minutes - 1) * 200 < PieceCount(Trim(StripTags(text))) <= minutes * 200
  {
    (PieceCount(Trim(StripTags(text))) + 199) / 200
  }

  /** Text with words reads at one minute per started 200 words; text with none reads as one minute. */
  lemma ReadingTimeOfWords(text: string)
    ensures var words := WordCount(Trim(StripTags(text)));
      && (words == 0 ==> ReadingTime(text) == 1)
      && (words > 0 ==> (ReadingTime(text) - 1) * 200 < words <= ReadingTime(text) * 200)
  {
    var t := Trim(StripTags(text));
    if t != [] {
      PiecesAreWords(t);
    } else {
      assert WordCount(t) == 0;
    }
  }


  // ---------------------------------------------------------------------------------------
  // The form record and the editor state
  // ---------------------------------------------------------------------------------------

  /** `BlogFormData`: what the editor holds and submits. */
  datatype FormData = FormData(
    title: string,
    slug: string,
    excerpt: string,
    content: string,
    category: string,
    author: string,
    coverImage: string,
    metaTitle: string,
    metaDescription: string,
    keywords: string,
    ogImage: string,
    canonical: string,
    isPublished: bool,
    noIndex: bool)

  /** The state of a new post: every text empty except category and author, both boxes clear. */
  const DefaultForm := FormData("", "", "", "", "Sustainability", "Admin", "", "", "", "", "", "", false, false)

  /** The text inputs wired to `handleChange` (the content comes from the rich-text editor instead). */
  datatype TextInput =
    | TitleInput | SlugInput | ExcerptInput | CategoryInput | AuthorInput | CoverImageInput
    | MetaTitleInput | MetaDescriptionInput | KeywordsInput | OgImageInput | CanonicalInput

  /** The two checkboxes wired to `handleChange`. */
  datatype CheckBox = PublishedBox | NoIndexBox

  /** One change event: an input's new text, or a checkbox's new state. */
  datatype Change = TextChange(input: TextInput, value: string) | CheckChange(box: CheckBox, checked: bool)

  function TextOf(d: FormData, input: TextInput): string {
    match input
    case TitleInput => d.title
    case SlugInput => d.slug
    case ExcerptInput => d.excerpt
    case CategoryInput => d.category
    case AuthorInput => d.author
    case CoverImageInput => d.coverImage
    case MetaTitleInput => d.metaTitle
    case MetaDescriptionInput => d.metaDescription
    case KeywordsInput => d.keywords
    case OgImageInput => d.ogImage
    case CanonicalInput => d.canonical
  }

  function CheckOf(d: FormData, box: CheckBox): bool {
    match box
    case PublishedBox => d.isPublished
    case NoIndexBox => d.noIndex
  }

  /** `{ ...prev, [name]: type === "checkbox" ? checked : value }`: the named field changes and nothing else. */
  function Apply(d: FormData, change: Change): (r: FormData)
    ensures r.content == d.content
    ensures forall input :: TextOf(r, input) == if change.TextChange? && input == change.input then change.value else TextOf(d, input)
    ensures forall box :: CheckOf(r, box) == if change.CheckChange? && box == change.box then change.checked else CheckOf(d, box)
  {
    match change
    case TextChange(input, v) =>
      (match input
       case TitleInput => d.(title := v)
       case SlugInput => d.(slug := v)
       case ExcerptInput => d.(excerpt := v)
       case CategoryInput => d.(category := v)
       case AuthorInput => d.(author := v)
       case CoverImageInput => d.(coverImage := v)
       case MetaTitleInput => d.(metaTitle := v)
       case MetaDescriptionInput => d.(metaDescription := v)
       case KeywordsInput => d.(keywords := v)
       case OgImageInput => d.(ogImage := v)
       case CanonicalInput => d.(canonical := v))
    case CheckChange(box, b) =>
      (match box
       case PublishedBox => d.(isPublished := b)
       case NoIndexBox => d.(noIndex := b))
  }

  /** The three fields the editor's invariant watches, after a change. */
  lemma ApplyWatched(d: FormData, change: Change)
    ensures var r := Apply(d, change);
      && r.title == (if change.TextChange? && change.input == TitleInput then change.value else d.title)
      && r.slug == (if change.TextChange? && change.input == SlugInput then change.value else d.slug)
      && r.author == (if change.TextChange? && change.input == AuthorInput then change.value else d.author)
  {
    var r := Apply(d, change);
    assert TextOf(r, TitleInput) == r.title && TextOf(r, SlugInput) == r.slug && TextOf(r, AuthorInput) == r.author;
  }

  /** Proof helper: the empty title has the empty slug. */
  lemma GenerateSlugOfEmpty()
    ensures GenerateSlug("") == ""
  {
    assert Lower("") == "";
  }

  /**
   * The editor's state: the form record, whether the slug was typed by hand, and whether the
   * author is the fixed "Admin". While the slug is not customised it follows the title; while
   * the author is "Admin" the author field says so.
   */
  class FormState {
    var data: FormData
    var isSlugCustomized: bool
    var isAuthorAdmin: bool

    ghost predicate Valid()
      reads this
    {
      && (!isSlugCustomized ==> data.slug == GenerateSlug(data.title))
      && (isAuthorAdmin ==> data.author == "Admin")
    }

    /** A new post starts from the default record; an edited one from its data, with the slug treated as customised. */
    constructor (initial: Option<FormData>)
      ensures data == (if initial.Some? then initial.value else DefaultForm)
      ensures isSlugCustomized <==> initial.Some?
      ensures isAuthorAdmin <==> initial.None? || initial.value.author == "Admin"
      ensures Valid()
    {
      if initial.Some? {
        data := initial.value;
        isSlugCustomized := true;
        isAuthorAdmin := initial.value.author == "Admin";
      } else {
        data := DefaultForm;
        isSlugCustomized := false;
        isAuthorAdmin := true;
        GenerateSlugOfEmpty();
      }
    }

    /**
     * `handleChange`: the named field takes the new value; a title edit also regenerates the
     * slug while it is not customised. The slug box customises the slug before it calls this,
     * and the author box is shown only when the author is not "Admin".
     */
    method HandleChange(change: Change)
      requires Valid()
      requires change.TextChange? && change.input == SlugInput ==> isSlugCustomized
      requires change.TextChange? && change.input == AuthorInput ==> !isAuthorAdmin
      modifies this
      ensures Valid()
      ensures isSlugCustomized == old(isSlugCustomized) && isAuthorAdmin == old(isAuthorAdmin)
      ensures change.TextChange? && change.input == TitleInput && !isSlugCustomized ==>
        data == Apply(old(data), change).(slug := GenerateSlug(change.value))
      ensures !(change.TextChange? && change.input == TitleInput && !isSlugCustomized) ==>
        data == Apply(old(data), change)
    {
      ApplyWatched(data, change);
      var updated := Apply(data, change);
      if change.TextChange? && change.input == TitleInput && !isSlugCustomized {
        updated := updated.(slug := GenerateSlug(change.value));
      }
      data := updated;
    }

    /** Typing in the slug box: the slug becomes customised, then takes the typed text. */
    method EditSlug(value: string)
      requires Valid()
      modifies this
      ensures Valid()
      ensures isSlugCustomized && isAuthorAdmin == old(isAuthorAdmin)
      ensures data == old(data).(slug := value)
    {
      isSlugCustomized := true;
      HandleChange(TextChange(SlugInput, value));
    }

    /** The reset button: the slug follows the title again. */
    method ResetSlug()
      requires Valid()
      modifies this
      ensures Valid()
      ensures !isSlugCustomized && isAuthorAdmin == old(isAuthorAdmin)
      ensures data == old(data).(slug := GenerateSlug(old(data).title))
    {
      isSlugCustomized := false;
      data := data.(slug := GenerateSlug(data.title));
    }

    /** The author switch: flips the mode; switching to "Admin" writes it, switching away clears the field. */
    method ToggleAuthor()
      requires Valid()
      modifies this
      ensures Valid()
      ensures isAuthorAdmin == !old(isAuthorAdmin) && isSlugCustomized == old(isSlugCustomized)
      ensures data == old(data).(author := if isAuthorAdmin then "Admin" else "")
    {
      var wasAdmin := isAuthorAdmin;
      isAuthorAdmin := !wasAdmin;
      data := data.(author := if !wasAdmin then "Admin" else "");
    }

    /** The rich-text editor's change callback: only the content changes. */
    method SetContent(html: string)
      requires Valid()
      modifies this
      ensures Valid()
      ensures isSlugCustomized == old(isSlugCustomized) && isAuthorAdmin == old(isAuthorAdmin)
      ensures data == old(data).(content := html)
    {
      data := data.(content := html);
    }
  }


  // ---------------------------------------------------------------------------------------
  // Submission
  // ---------------------------------------------------------------------------------------

  /** `onSubmit(formData)`: the record goes to the action as it is, fourteen keys and no others. */
  function FormToRaw(d: FormData): RawForm {
    map[
      Title := Str(d.title),
      Slug := Str(d.slug),
      Excerpt := Str(d.excerpt),
      Content := Str(d.content),
      Category := Str(d.category),
      Author := Str(d.author),
      CoverImage := Str(d.coverImage),
      MetaTitle := Str(d.metaTitle),
      MetaDescription := Str(d.metaDescription),
      Keywords := Str(d.keywords),
      OgImage := Str(d.ogImage),
      Canonical := Str(d.canonical),
      IsPublished := Bool(d.isPublished),
      NoIndex := Bool(d.noIndex)
    ]
  }

  /** Proof helper for `FormReads`, split off to keep each proof small: the content fields. */
  lemma FormReadsContent(d: FormData)
    ensures var raw := FormToRaw(d);
      && Get(raw, Title) == Str(d.title) && Get(raw, Slug) == Str(d.slug) && Get(raw, Category) == Str(d.category)
      && Get(raw, Author) == Str(d.author) && Get(raw, CoverImage) == Str(d.coverImage)
      && Get(raw, Excerpt) == Str(d.excerpt) && Get(raw, Content) == Str(d.content)
  {
  }

  /** Proof helper for `FormReads`: the SEO fields. */
  lemma FormReadsSeo(d: FormData)
    ensures var raw := FormToRaw(d);
      && Get(raw, MetaTitle) == Str(d.metaTitle) && Get(raw, MetaDescription) == Str(d.metaDescription)
      && Get(raw, OgImage) == Str(d.ogImage) && Get(raw, Canonical) == Str(d.canonical)
      && Get(raw, Keywords) == Str(d.keywords)
  {
  }

  /** Proof helper for `FormReads`: the flags. */
  lemma FormReadsFlags(d: FormData)
    ensures var raw := FormToRaw(d);
      && Get(raw, IsPublished) == Bool(d.isPublished)
      && Get(raw, IsSearchable) == Absent && Get(raw, IsFeatured) == Absent && Get(raw, PublishedAt) == Absent
  {
  }

  /** The values a submitted form presents to the normaliser; the index controls and the date are missing. */
  lemma FormReads(d: FormData)
    ensures var raw := FormToRaw(d);
      && Get(raw, Title) == Str(d.title) && Get(raw, Slug) == Str(d.slug) && Get(raw, Category) == Str(d.category)
      && Get(raw, Author) == Str(d.author) && Get(raw, CoverImage) == Str(d.coverImage)
      && Get(raw, Excerpt) == Str(d.excerpt) && Get(raw, Content) == Str(d.content)
      && Get(raw, IsPublished) == Bool(d.isPublished)
      && Get(raw, MetaTitle) == Str(d.metaTitle) && Get(raw, MetaDescription) == Str(d.metaDescription)
      && Get(raw, OgImage) == Str(d.ogImage) && Get(raw, Canonical) == Str(d.canonical)
      && Get(raw, Keywords) == Str(d.keywords)
      && Get(raw, IsSearchable) == Absent && Get(raw, IsFeatured) == Absent && Get(raw, PublishedAt) == Absent
  {
    FormReadsContent(d);
    FormReadsSeo(d);
    FormReadsFlags(d);
  }

  /**
   * The form's `noIndex` box is never read: the normaliser looks for `isSearchable`, which the
   * form does not send, so a submitted post is neither searchable nor featured whatever the box says.
   */
  lemma SubmissionNeverIndexed(d: FormData, now: int)
    ensures Transform(FormToRaw(d)).indexControl == Some(IndexCandidate(Bool(false), Bool(false)))
    ensures Transform(FormToRaw(d.(noIndex := !d.noIndex))) == Transform(FormToRaw(d))
    ensures Parse(Transform(FormToRaw(d)), now).Success? ==>
      Parse(Transform(FormToRaw(d)), now).value.fields.indexControl == IndexControl(false, false)
  {
    FormReads(d);
    FormReads(d.(noIndex := !d.noIndex));
    var c := Transform(FormToRaw(d));
    if Parse(c, now).Success? {
      ParseKeepsComplete(c, now);
    }
  }

  /** The edit page's initial data for a stored post: the form fields, with `noIndex` the negated `isSearchable`. */
  function EditForm(doc: Doc): FormData {
    var f := doc.fields;
    FormData(
      title := f.title,
      slug := f.slug,
      excerpt := f.excerpt,
      content := f.content,
      category := f.category,
      author := f.author,
      coverImage := f.coverImage,
      metaTitle := f.seo.metaTitle,
      metaDescription := f.seo.metaDescription,
      keywords := Join(f.seo.keywords, ", "),
      ogImage := f.seo.ogImage,
      canonical := f.seo.canonical,
      isPublished := f.isPublished,
      noIndex := !f.indexControl.isSearchable)
  }

  /** What the normaliser makes of an unchanged edit form. */
  lemma TransformEditForm(doc: Doc)
    requires CleanKeywords(doc.fields.seo.keywords)
    ensures var g := Refilled(doc.fields);
      Transform(FormToRaw(EditForm(doc))) == Candidate(
        Str(g.title), Str(g.slug), Str(g.category), Str(g.author), Str(g.coverImage), Str(g.excerpt),
        Str(g.content), Bool(g.isPublished),
        Some(SeoCandidate(Str(g.seo.metaTitle), Str(g.seo.metaDescription), Some(g.seo.keywords),
                          Str(g.seo.ogImage), Str(g.seo.canonical))),
        Some(IndexCandidate(Bool(false), Bool(false))),
        Absent)
  {
    FormReads(EditForm(doc));
    KeywordsRoundTrip(doc.fields.seo.keywords);
  }

  /**
   * Opening a stored post in the editor and saving it unchanged keeps every field except the
   * index controls, which come back as not searchable and not featured.
   */
  lemma EditSaveUnindexes(doc: Doc, now: int, castDate: string -> Option<int>)
    requires WellStored(doc) && Conforms(doc.fields)
    requires doc.fields.seo.metaTitle != "" && doc.fields.seo.ogImage != ""
    ensures PrepareUpdate(FormToRaw(EditForm(doc)), now, castDate) ==
      Ready(doc.fields.(indexControl := IndexControl(false, false)), doc.fields.slug, now)
  {
    var f := doc.fields.(indexControl := IndexControl(false, false));
    TransformEditForm(doc);
    var c := Transform(FormToRaw(EditForm(doc)));
    ParseKeepsComplete(c, now);
    assert Parse(c, now) == Success(BlogPost(f, Instant(now)));
    UpdateOfParsed(FormToRaw(EditForm(doc)), now, castDate, BlogPost(f, Instant(now)));
    SettersIdempotent(f);
  }

}
