/**
 toSlug. Trimming, lower-casing and stripping of accents are an abstract normaliser; the three
 replacements that shape the result are as written.
 */
module Slug {

  predicate SlugChar(c: char)
  {
    'a' <= c <= 'z' || '0' <= c <= '9'
  }

  /** Every maximal run of other characters becomes one hyphen. */
  function Hyphenate(s: string): string
  {
    if |s| == 0 then ""
    else
      var front, last := s[..|s| - 1], s[|s| - 1];
      if SlugChar(last) then Hyphenate(front) + [last]
      else if |front| > 0 && !SlugChar(front[|front| - 1]) then Hyphenate(front)
      else Hyphenate(front) + "-"
  }

  /** Every run of hyphens becomes one hyphen. */
  function Squeeze(s: string): string
  {
    if |s| == 0 then ""
    else
      var front, last := s[..|s| - 1], s[|s| - 1];
      if last == '-' && |front| > 0 && front[|front| - 1] == '-' then Squeeze(front)
      else Squeeze(front) + [last]
  }

  /** One hyphen at either end goes. */
  function StripEnds(s: string): string
  {
    var t := if |s| > 0 && s[0] == '-' then s[1..] else s;
    if |t| > 0 && t[|t| - 1] == '-' then t[..|t| - 1] else t
  }

  /** The three replacements on a normalised string. */
  function Shaped(s: string): string
  {
    StripEnds(Squeeze(Hyphenate(s)))
  }

  function ToSlug(normal: string -> string, value: string): string
  {
    Shaped(normal(value))
  }

  ghost predicate Joined(s: string)
  {
    && (forall i :: 0 <= i < |s| ==> SlugChar(s[i]) || s[i] == '-')
    && (forall i :: 0 <= i < |s| - 1 ==> !(s[i] == '-' && s[i + 1] == '-'))
  }

  /** Words of a-z and 0-9 separated by single hyphens, none at the ends. */
  ghost predicate SlugShape(s: string)
  {
    Joined(s) && (|s| > 0 ==> s[0] != '-' && s[|s| - 1] != '-')
  }

  lemma {:induction false} HyphenateShape(s: string)
    ensures Joined(Hyphenate(s))
    ensures |Hyphenate(s)| > 0 && Hyphenate(s)[|Hyphenate(s)| - 1] == '-' ==> |s| > 0 && !SlugChar(s[|s| - 1])
  {
    if |s| > 0 {
      HyphenateShape(s[..|s| - 1]);
    }
  }

  lemma {:induction false} SqueezeJoined(s: string)
    requires Joined(s)
    ensures Squeeze(s) == s
  {
    if |s| > 0 {
      SqueezeJoined(s[..|s| - 1]);
      assert s == s[..|s| - 1] + [s[|s| - 1]];
      if |s| > 1 {
        assert !(s[|s| - 2] == '-' && s[|s| - 1] == '-');
      }
    }
  }

  /**
   Whatever the normaliser does, a slug has the slug's shape, and nothing but letters, digits and hyphens; in
   particular it has no underscore.
   */
  lemma ToSlugShape(normal: string -> string, value: string)
    ensures SlugShape(ToSlug(normal, value))
    ensures forall c :: c in ToSlug(normal, value) ==> 'a' <= c <= 'z' || '0' <= c <= '9' || c == '-'
    ensures '_' !in ToSlug(normal, value)
  {
    var h := Hyphenate(normal(value));
    HyphenateShape(normal(value));
    SqueezeJoined(h);
    var t := if |h| > 0 && h[0] == '-' then h[1..] else h;
    assert Joined(t);
    assert |t| > 0 ==> t[0] != '-';
  }

  lemma {:induction false} HyphenateKeeps(s: string)
    requires Joined(s)
    ensures Hyphenate(s) == s
  {
    if |s| > 0 {
      var front, last := s[..|s| - 1], s[|s| - 1];
      HyphenateKeeps(front);
      assert s == front + [last];
      if |front| > 0 {
        assert !(s[|s| - 2] == '-' && s[|s| - 1] == '-');
      }
    }
  }

  /** What normalises to a slug becomes that slug. */
  lemma NormalisedSlug(normal: string -> string, value: string)
    requires SlugShape(normal(value))
    ensures ToSlug(normal, value) == normal(value)
  {
    HyphenateKeeps(normal(value));
    SqueezeJoined(normal(value));
  }

  /** A slug is its own slug, where normalisation fixes a-z, 0-9 and the hyphen. */
  lemma ToSlugIdempotent(normal: string -> string, value: string)
    requires forall s :: Joined(s) ==> normal(s) == s
    ensures ToSlug(normal, ToSlug(normal, value)) == ToSlug(normal, value)
  {
    ToSlugShape(normal, value);
    NormalisedSlug(normal, ToSlug(normal, value));
  }

  // ---- what becomes of separators

  /** Without its leading hyphen, if it has one. */
  function Lead(s: string): string
  {
    if |s| > 0 && s[0] == '-' then s[1..] else s
  }

  /** Without its trailing hyphen, if it has one. */
  function Trail(s: string): string
  {
    if |s| > 0 && s[|s| - 1] == '-' then s[..|s| - 1] else s
  }

  lemma ShapedEnds(s: string)
    ensures Shaped(s) == Trail(Lead(Hyphenate(s)))
  {
    HyphenateShape(s);
    SqueezeJoined(Hyphenate(s));
  }

  predicate Separator(s: string)
  {
    |s| > 0 && forall i :: 0 <= i < |s| ==> !('a' <= s[i] <= 'z' || '0' <= s[i] <= '9')
  }

  /** A word of letters and digits is its own slug. */
  lemma WordKept(s: string)
    requires forall i :: 0 <= i < |s| ==> 'a' <= s[i] <= 'z' || '0' <= s[i] <= '9'
    ensures Shaped(s) == s
  {
    HyphenateKeeps(s);
    SqueezeJoined(s);
  }

  lemma {:induction false} HyphenateSeparated(u: string, separator: string)
    requires Separator(separator)
    ensures Hyphenate(u + separator) == Trail(Hyphenate(u)) + "-"
  {
    var s := u + separator;
    var front := separator[..|separator| - 1];
    assert s[..|s| - 1] == u + front;
    if |front| > 0 {
      HyphenateSeparated(u, front);
      assert s[..|s| - 1][|s| - 2] == front[|front| - 1];
    } else {
      assert u + front == u;
      HyphenateTrails(u);
    }
  }

  /** A hyphen ends what came of a string exactly where the string ends outside a-z and 0-9. */
  lemma HyphenateTrails(s: string)
    ensures Hyphenate(s) == if |s| > 0 && !SlugChar(s[|s| - 1]) then Trail(Hyphenate(s)) + "-" else Trail(Hyphenate(s))
    decreases |s|
  {
    if |s| > 1 {
      HyphenateTrails(s[..|s| - 1]);
    }
  }

  lemma HyphenateStep(front: string, last: char)
    ensures Hyphenate(front + [last])
            == if SlugChar(last) then Hyphenate(front) + [last]
               else if |front| > 0 && !SlugChar(front[|front| - 1]) then Hyphenate(front)
               else Hyphenate(front) + "-"
  {
    assert (front + [last])[..|front|] == front;
  }

  lemma LeadAppend(s: string, c: char)
    ensures |s| > 0 || c != '-' ==> Lead(s + [c]) == Lead(s) + [c]
  {
    if |s| > 0 && s[0] == '-' {
      assert (s + [c])[1..] == s[1..] + [c];
    }
  }

  lemma {:induction false} HyphenateAfter(u: string, separator: string, v: string)
    requires Separator(separator)
    ensures Hyphenate(u + separator + v) == Trail(Hyphenate(u)) + "-" + Lead(Hyphenate(v))
  {
    hide Hyphenate, Lead, Trail;
    if |v| == 0 {
      assert u + separator + v == u + separator;
      HyphenateSeparated(u, separator);
      NoLead();
    } else {
      var front, last := v[..|v| - 1], v[|v| - 1];
      var before := u + separator + front;
      assert u + separator + v == before + [last] && v == front + [last];
      HyphenateAfter(u, separator, front);
      HyphenateFirst(front);
      HyphenateStep(before, last);
      HyphenateStep(front, last);
      LeadAppend(Hyphenate(front), last);
      LeadAppend(Hyphenate(front), '-');
      if |front| > 0 {
        assert before[|before| - 1] == front[|front| - 1];
      } else {
        assert before[|before| - 1] == separator[|separator| - 1];
        NoLead();
        assert front == "" && Hyphenate(front) + "-" == "-";
      }
    }
  }

  lemma NoLead()
    ensures Hyphenate("") == "" && Lead("") == "" && Lead("-") == ""
  {
  }

  lemma {:induction false} HyphenateFirst(s: string)
    ensures |Hyphenate(s)| > 0 <==> |s| > 0
  {
    if |s| > 0 {
      HyphenateFirst(s[..|s| - 1]);
    }
  }

  /** Two slugs with a hyphen between them, or the one that is not empty. */
  function Hyphenated(a: string, b: string): string
  {
    if |a| == 0 then b else if |b| == 0 then a else a + "-" + b
  }

  lemma StripAround(a: string, b: string)
    requires (|a| > 0 ==> a[|a| - 1] != '-') && (|b| > 0 ==> b[0] != '-')
    ensures Trail(Lead(a + "-" + b)) == Hyphenated(Lead(a), Trail(b))
  {
    var whole := a + "-" + b;
    if |a| == 0 {
      assert whole[1..] == b;
    } else {
      var rest := Lead(a) + "-" + b;
      assert Lead(whole) == rest;
      if |b| == 0 {
        assert rest[..|rest| - 1] == Lead(a);
      } else {
        assert rest[|rest| - 1] == b[|b| - 1];
        assert Trail(rest) == Lead(a) + "-" + Trail(b);
      }
    }
  }

  /**
   A separator of whatever length between two strings, whatever they are, becomes one hyphen between their
   slugs; one that has nothing beside it disappears.
   */
  lemma SeparatorBecomesHyphen(u: string, separator: string, v: string)
    requires Separator(separator)
    ensures Shaped(u + separator + v) == Hyphenated(Shaped(u), Shaped(v))
  {
    hide Hyphenate, Shaped;
    ShapedEnds(u);
    ShapedEnds(v);
    ShapedEnds(u + separator + v);
    HyphenateAfter(u, separator, v);
    HyphenateShape(u);
    HyphenateShape(v);
    EndsApart(Hyphenate(u));
    EndsApart(Hyphenate(v));
    hide Lead, Trail, Joined;
    StripAround(Trail(Hyphenate(u)), Lead(Hyphenate(v)));
  }

  /** Of a string without two hyphens in a row, both ends can be stripped in either order, and then are clean. */
  lemma EndsApart(s: string)
    requires Joined(s)
    ensures Trail(Lead(s)) == Lead(Trail(s))
    ensures |Lead(s)| > 0 ==> Lead(s)[0] != '-'
    ensures |Trail(s)| > 0 ==> Trail(s)[|Trail(s)| - 1] != '-'
  {
  }

  /** So is a slug put together: words between separators, as the normaliser leaves them. */
  lemma SlugOfWords(normal: string -> string, value: string, u: string, separator: string, v: string)
    requires normal(value) == u + separator + v && Separator(separator)
    requires SlugShape(u) && SlugShape(v) && |u| > 0 && |v| > 0
    ensures ToSlug(normal, value) == u + "-" + v
  {
    SeparatorBecomesHyphen(u, separator, v);
    HyphenateKeeps(u);
    HyphenateKeeps(v);
    SqueezeJoined(u);
    SqueezeJoined(v);
  }
}
