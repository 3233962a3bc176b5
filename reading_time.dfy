/**
  The reading-time estimator: `hussainas_calculate_reading_time_minutes`
  turns a post's text into a whole number of minutes, and
  `hussainas_get_estimated_reading_time` turns that number into the label
  "N min read".

  The WordPress host is passed in explicitly: the post lookup is an
  `Option<Post>`, and the content cleaners and both filter hooks are the
  function fields of a `Host`.
 */
module ReadingTime {
  import opened Words
  import opened Format

  datatype Option<T> = None | Some(value: T)

  /** The part of a WordPress post the estimator reads. */
  datatype Post = Post(id: int, content: string)

  /** The host's collaborators. `wpmFilter` stands for the
      `hussainas_reading_time_wpm` filter followed by the `(int)` cast,
      `labelFilter` for the `hussainas_formatted_reading_time` filter. */
  datatype Host = Host(
    stripShortcodes: string -> string,
    stripAllTags: string -> string,
    decodeEntities: string -> string,
    wpmFilter: int -> int,
    labelFilter: (string, int, int) -> string)

  /** The words-per-minute rate the filter is given, and the fallback. */
  const DefaultWpm: int := 200

  /** The singular and plural formats handed to `_n`. */
  const SingularFormat: string := "%d min read"
  const PluralFormat: string := "%d min read"

  /** The unit phrase after the numeral in the label. */
  const UnitPhrase: string := " min read"

  // ---------------------------------------------------------------------------
  // Minutes
  // ---------------------------------------------------------------------------

  /** The text whose words are counted: shortcodes removed, then tags
      removed, then entities decoded. */
  function PlainText(p: Post, h: Host): string {
    h.decodeEntities(h.stripAllTags(h.stripShortcodes(p.content)))
  }

  /** The rate the division uses: the filtered rate, or the default when the
      filter gives zero or less. */
  function EffectiveWpm(filtered: int): (r: int)
    ensures r > 0
    ensures filtered > 0 ==> r == filtered
    ensures filtered <= 0 ==> r == DefaultWpm
  {
    if filtered <= 0 then DefaultWpm else filtered
  }

  /** `m` is the least whole number with `m * r >= w`, i.e. the ceiling of `w / r`. */
  predicate IsCeiling(m: int, w: int, r: int) {
    m * r >= w && (m - 1) * r < w
  }

  /** `ceil($word_count / $wpm)` in exact integer arithmetic. */
  function CeilDiv(w: nat, r: int): (m: nat)
    requires r > 0
    ensures IsCeiling(m, w, r)
  {
    var q := (w + r - 1) / r;
    assert q * r <= w + r - 1 < q * r + r;
    q
  }

  /** There is only one such whole number. */
  lemma CeilingUnique(m1: int, m2: int, w: int, r: int)
    requires r > 0 && IsCeiling(m1, w, r) && IsCeiling(m2, w, r)
    ensures m1 == m2
  {
  }

  /** The clamp to one minute never changes an exact ceiling of a positive count. */
  lemma ClampUnreachable(w: nat, r: int)
    requires w > 0 && r > 0
    ensures CeilDiv(w, r) >= 1
  {
  }

  /** The computation of `hussainas_calculate_reading_time_minutes` once the
      post is found and its text cleaned; `filteredWpm` is what the rate
      filter returned. */
  function MinutesForText(text: string, filteredWpm: int): (m: int)
    ensures m >= 0
    ensures m == 0 <==> WordCount(text) == 0
    ensures WordCount(text) > 0 ==> m >= 1 && IsCeiling(m, WordCount(text), EffectiveWpm(filteredWpm))
  {
    var wordCount := WordCount(text);
    if wordCount <= 0 then 0
    else
      var wpm := EffectiveWpm(filteredWpm);
      var estimated: int := CeilDiv(wordCount, wpm);
      ClampUnreachable(wordCount, wpm);
      if estimated < 1 && wordCount > 0 then 1 else estimated
  }

  /** `hussainas_calculate_reading_time_minutes`: 0 for a post that is not
      found, otherwise the minutes for its cleaned text at the filtered rate. */
  function Minutes(post: Option<Post>, h: Host): (m: int)
    ensures m >= 0
    ensures post.None? ==> m == 0
    ensures post.Some? ==> (m == 0 <==> AllSpace(PlainText(post.value, h)))
    ensures post.Some? && WordCount(PlainText(post.value, h)) > 0 ==>
      IsCeiling(m, WordCount(PlainText(post.value, h)), EffectiveWpm(h.wpmFilter(DefaultWpm)))
  {
    match post
    case None => 0
    case Some(p) =>
      MinutesForText(PlainText(p, h), h.wpmFilter(DefaultWpm))
  }

  /** A rate of zero or less behaves exactly like the default rate. */
  lemma NonPositiveRateIsDefault(text: string, filteredWpm: int)
    requires filteredWpm <= 0
    ensures MinutesForText(text, filteredWpm) == MinutesForText(text, DefaultWpm)
  {
    var w := WordCount(text);
    if w > 0 {
      CeilingUnique(MinutesForText(text, filteredWpm), MinutesForText(text, DefaultWpm), w, DefaultWpm);
    }
  }

  /** The minutes are a function of the text and the rate alone: the post's
      ID and the label filter play no part. */
  lemma MinutesDependOnTextAndRateOnly(p1: Post, h1: Host, p2: Post, h2: Host)
    requires PlainText(p1, h1) == PlainText(p2, h2)
    requires h1.wpmFilter(DefaultWpm) == h2.wpmFilter(DefaultWpm)
    ensures Minutes(Some(p1), h1) == Minutes(Some(p2), h2)
  {
  }

  /** A text of W words at rate R takes ceiling(W / R) minutes. */
  lemma MinutesAreCeiling(text: string, filteredWpm: int, m: int)
    requires WordCount(text) > 0
    requires IsCeiling(m, WordCount(text), EffectiveWpm(filteredWpm))
    ensures MinutesForText(text, filteredWpm) == m
  {
    CeilingUnique(m, MinutesForText(text, filteredWpm), WordCount(text), EffectiveWpm(filteredWpm));
  }

  // ---------------------------------------------------------------------------
  // Label
  // ---------------------------------------------------------------------------

  /** `sprintf(_n('%d min read', '%d min read', $minutes), $minutes)`. */
  function TimeString(minutes: nat): (s: string)
    ensures s == Numeral(minutes) + UnitPhrase
  {
    var fmt := PluralForm(SingularFormat, PluralFormat, minutes);
    LabelFormats();
    FormatInt(fmt, minutes)
  }

  /** Both forms are the same format: `%d` followed by the unit phrase,
      which holds no further directive. */
  lemma LabelFormats()
    ensures SingularFormat == PluralFormat
    ensures |SingularFormat| >= 2 && SingularFormat[..2] == "%d"
    ensures SingularFormat[2..] == UnitPhrase && NoDirective(UnitPhrase)
  {
    assert SingularFormat == "%d" + UnitPhrase;
  }

  /** `hussainas_get_estimated_reading_time`: empty for a post that is not
      found or that has no words; otherwise the label filter applied to the
      formatted string, the minutes and the post's ID. */
  function Label(post: Option<Post>, h: Host): (s: string)
    ensures post.None? ==> s == ""
    ensures post.Some? && Minutes(post, h) == 0 ==> s == ""
    ensures post.Some? && Minutes(post, h) >= 1 ==>
      s == h.labelFilter(Numeral(Minutes(post, h)) + UnitPhrase, Minutes(post, h), post.value.id)
  {
    match post
    case None => ""
    case Some(p) =>
      var minutes := Minutes(Some(p), h);
      if minutes <= 0 then ""
      else h.labelFilter(TimeString(minutes), minutes, p.id)
  }

  /** The host with the label filter left unhooked. */
  function Unfiltered(h: Host): Host {
    h.(labelFilter := (s: string, minutes: int, id: int) => s)
  }

  /** Before the label filter, the label is non-empty exactly when the
      estimate is at least one minute, and then it is the numeral followed by
      the unit phrase, for one minute as for many. */
  lemma UnfilteredLabel(post: Option<Post>, h: Host)
    ensures Label(post, Unfiltered(h)) != "" <==> Minutes(post, h) >= 1
    ensures Minutes(post, h) >= 1 ==> Label(post, Unfiltered(h)) == Numeral(Minutes(post, h)) + UnitPhrase
  {
    assert Minutes(post, Unfiltered(h)) == Minutes(post, h);
  }

  /** A missing post gives no minutes and an empty label. */
  lemma PostNotFound(h: Host)
    ensures Minutes(None, h) == 0 && Label(None, h) == ""
  {
  }

  /** Text with no words gives no minutes and an empty label. */
  lemma WhitespaceOnlyText(p: Post, h: Host)
    requires AllSpace(PlainText(p, h))
    ensures Minutes(Some(p), h) == 0 && Label(Some(p), h) == ""
  {
  }

  // ---------------------------------------------------------------------------
  // Worked cases at the default rate
  // ---------------------------------------------------------------------------

  /** 200 words take one minute, 450 words three, a single word one, and 400
      words at a filtered rate of zero two. */
  lemma DefaultRateCases(text: string)
    ensures WordCount(text) == 200 ==> MinutesForText(text, DefaultWpm) == 1
    ensures WordCount(text) == 450 ==> MinutesForText(text, DefaultWpm) == 3
    ensures WordCount(text) == 1 ==> MinutesForText(text, DefaultWpm) == 1
    ensures WordCount(text) == 400 ==> MinutesForText(text, 0) == 2
  {
    var w := WordCount(text);
    if w == 200 {
      MinutesAreCeiling(text, DefaultWpm, 1);
    } else if w == 450 {
      MinutesAreCeiling(text, DefaultWpm, 3);
    } else if w == 1 {
      MinutesAreCeiling(text, DefaultWpm, 1);
    } else if w == 400 {
      MinutesAreCeiling(text, 0, 2);
    }
  }

  /** The decoded text of `<b>Hello &amp; world</b>` splits into three words. */
  lemma DecodedTextWords()
    ensures Split("Hello & world") == ["Hello", "&", "world"]
  {
    DecodedTextPieces();
  }

  lemma DecodedTextPieces()
    ensures TokensFrom("Hello & world", 0) == ["Hello", "&", "world"]
  {
    var s := "Hello & world";
    assert RunEnd(s, 0) == 5;
    assert RunEnd(s, 6) == 7;
    assert RunEnd(s, 8) == 13;
    assert s[0..5] == "Hello" && s[6..7] == "&" && s[8..13] == "world";
    assert TokensFrom(s, 13) == [];
    assert TokensFrom(s, 8) == ["world"];
    assert TokensFrom(s, 7) == ["world"];
    assert TokensFrom(s, 6) == ["&", "world"];
    assert TokensFrom(s, 5) == ["&", "world"];
  }

  /** One minute is shown as "1 min read". */
  lemma OneMinuteLabel(post: Option<Post>, h: Host)
    requires Minutes(post, h) == 1
    ensures Label(post, Unfiltered(h)) == "1 min read"
  {
    UnfilteredLabel(post, h);
    OneMinuteText();
  }

  /** The unfiltered label for one minute. */
  lemma OneMinuteText()
    ensures Numeral(1) + UnitPhrase == "1 min read"
  {
    assert Numeral(1) == "1";
  }

  /** Content such as `<b>Hello &amp; world</b>`, which the host's cleaners
      turn into "Hello & world", takes one minute at the default rate and is
      labelled "1 min read". What the cleaners return is assumed, not derived. */
  lemma DecodedMarkupExample(p: Post, h: Host)
    requires PlainText(p, h) == "Hello & world"
    requires h.wpmFilter(DefaultWpm) == DefaultWpm
    ensures Minutes(Some(p), h) == 1
    ensures Label(Some(p), Unfiltered(h)) == "1 min read"
  {
    var text := PlainText(p, h);
    DecodedTextWords();
    assert WordCount(text) == 3;
    MinutesAreCeiling(text, DefaultWpm, 1);
    OneMinuteLabel(Some(p), h);
  }
}
