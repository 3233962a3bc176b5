# Reading time for WordPress posts, in Dafny

This project models the reading-time estimator of the `hussainas-reading-time.php`
plugin file. The model has two parts:

- `hussainas_calculate_reading_time_minutes` takes a post and gives a whole
  number of minutes. It cleans the post content, counts the words by splitting
  on whitespace, reads a words-per-minute rate from a filter hook (falling back
  to 200 when the rate is zero or less), rounds the quotient up, and keeps a
  defensive clamp to one minute.
- `hussainas_get_estimated_reading_time` turns those minutes into the label
  "N min read". The label is empty when there are no minutes. Otherwise the
  label goes through a second filter hook, which receives the label, the
  minutes and the post ID.

The source has no state and no loops, so the model is pure functions and lemmas.
It is split into three modules:

- `Words` (`words.dfy`) models
  `preg_split('/\s+/', …, PREG_SPLIT_NO_EMPTY)` and `count`.
- `Format` (`format.dfy`) models the decimal numeral written by `sprintf`'s
  `%d`, the substitution of that numeral into the format, and `_n` with no
  translation loaded.
- `ReadingTime` (`reading_time.dfy`) models the two plugin functions.

The WordPress host is an explicit input:

- `get_post` becomes an `Option<Post>`, where `None` means the post was not found.
- `strip_shortcodes`, `wp_strip_all_tags` and `html_entity_decode` are function
  fields of a `Host` value.
- The `hussainas_reading_time_wpm` filter is a function field of `Host`. It is
  applied to 200 and gives an `int`, which stands for the filter followed by the
  `(int)` cast.
- The `hussainas_formatted_reading_time` filter is a function field of `Host`
  that takes the label, the minutes and the post ID.

Two details of the source shape the model:

- The comment at hussainas-reading-time.php:50 calls the split reliable for
  multi-byte text. However, the pattern `/\s+/` has no `u` modifier, so `\s` is
  the ASCII class: space, tab, line feed, vertical tab, form feed and carriage
  return. That is what `Words.IsSpace` accepts, and nothing above U+0020 is
  whitespace to it. The model works on characters, while PCRE works on the
  bytes of PHP's string. The model assumes that its string is the UTF-8
  decoding of those bytes. Under that assumption both count the same runs,
  because no byte of a multi-byte UTF-8 character is ASCII whitespace.
- The source divides in floating point and calls `ceil` (lines 73-76). The
  model uses exact integer ceiling division, `(w + r - 1) / r`. With exact
  division the clamp to one minute at lines 79-81 can never fire
  (`ClampUnreachable`).

## Model

| member | source | states |
|---|---|---|
| Words.IsSpace | hussainas-reading-time.php:51 | `\s` without the `u` modifier: space, tab, line feed, vertical tab, form feed and carriage return; no character above U+0020 counts as whitespace |
| Words.RunEnd | hussainas-reading-time.php:51 | the run that starts at `i` ends at the first whitespace character or at the end of the text, and contains no whitespace |
| Words.TokensFrom | hussainas-reading-time.php:51 | every piece the split produces is non-empty and contains no whitespace (PREG_SPLIT_NO_EMPTY) |
| Words.RunStartsFrom | hussainas-reading-time.php:51 | lists every index from `i` on where a maximal non-whitespace run starts, no other index, in strictly increasing order |
| Words.NoRunStartsInsideRun | hussainas-reading-time.php:51 | no maximal run starts strictly inside the run that begins at `i` |
| Words.TokensFromAreRuns | hussainas-reading-time.php:51 | from any position outside a run, there is one piece per run start, and the n-th piece is exactly the maximal run at the n-th run start |
| Words.TokensFromKeepNonSpace | hussainas-reading-time.php:51 | joining the pieces from a position gives exactly the non-whitespace characters from that position, in order |
| Words.TokensFromEmptyIffSpace | hussainas-reading-time.php:51 | there are no pieces from a position onwards exactly when only whitespace is left |
| Words.Split | hussainas-reading-time.php:51 | the pieces are exactly the maximal runs of non-whitespace characters, one per run start, in order; each is non-empty and whitespace-free, and joined together they give back every non-whitespace character of the text in order |
| Words.WordCount | hussainas-reading-time.php:51 | the word count equals the number of maximal runs of non-whitespace characters, and it is zero exactly when the text is empty or whitespace only |
| Format.Numeral | hussainas-reading-time.php:111-120 | the `%d` numeral is a non-empty string of decimal digits, with a leading zero only for the number 0 |
| Format.NumeralRoundTrip | hussainas-reading-time.php:111-120 | reading the numeral back as a decimal number gives the original number |
| Format.NumeralInjective | hussainas-reading-time.php:111-120 | different minute counts give different numerals |
| Format.FormatInt | hussainas-reading-time.php:111-120 | `sprintf` copies format text that holds no `%` unchanged, and turns a leading `%d` into the numeral of the argument followed by the rest of the format |
| ReadingTime.PlainText | hussainas-reading-time.php:40-47 | the text that is counted is the raw content after `strip_shortcodes`, then `wp_strip_all_tags`, then `html_entity_decode` |
| ReadingTime.EffectiveWpm | hussainas-reading-time.php:65-70 | the rate used for division is always positive; it is the filtered rate when that is positive, and 200 otherwise |
| ReadingTime.CeilDiv | hussainas-reading-time.php:73-76 | the rounded-up quotient `m` satisfies `m*r >= w` and `(m-1)*r < w` |
| ReadingTime.CeilingUnique | hussainas-reading-time.php:73-76 | at most one whole number satisfies that ceiling characterisation |
| ReadingTime.ClampUnreachable | hussainas-reading-time.php:78-81 | for a positive word count the exact ceiling is already at least 1, so the clamp never changes the result |
| ReadingTime.MinutesForText | hussainas-reading-time.php:51-83 | the minutes are never negative, zero exactly when there are no words, and otherwise at least 1 and equal to ceiling(words / effective rate) |
| ReadingTime.Minutes | hussainas-reading-time.php:30-84 | a missing post gives 0; for a found post, 0 exactly when its cleaned text is whitespace only, and otherwise ceiling(words / effective rate) |
| ReadingTime.NonPositiveRateIsDefault | hussainas-reading-time.php:65-70 | a filtered rate of zero or less gives exactly the minutes of the default rate 200 |
| ReadingTime.MinutesDependOnTextAndRateOnly | hussainas-reading-time.php:30-84 | two posts with the same cleaned text and the same filtered rate get the same minutes, whatever their IDs and label filters |
| ReadingTime.MinutesAreCeiling | hussainas-reading-time.php:73-83 | for at least one word, any `m` that satisfies the ceiling characterisation is the computed minutes |
| ReadingTime.TimeString | hussainas-reading-time.php:111-120 | the formatted string is the numeral of the minutes followed by " min read"; singular and plural give the same string |
| ReadingTime.LabelFormats | hussainas-reading-time.php:113-118 | the singular and plural formats given to `_n` are the same, `%d` followed by " min read" with no other directive |
| ReadingTime.Label | hussainas-reading-time.php:95-132 | a missing post or zero minutes gives "", and no filter is applied; otherwise the result is the label filter applied to exactly (numeral + " min read", minutes, post ID) |
| ReadingTime.UnfilteredLabel | hussainas-reading-time.php:104-120 | without a label filter, the label is non-empty exactly when the minutes are at least 1, and then it is the numeral followed by " min read" |
| ReadingTime.PostNotFound | hussainas-reading-time.php:32-37 | a post that cannot be found gives 0 minutes and the empty label |
| ReadingTime.WhitespaceOnlyText | hussainas-reading-time.php:51-56 | empty or whitespace-only cleaned text gives 0 minutes and the empty label |
| ReadingTime.DefaultRateCases | hussainas-reading-time.php:65-83 | at rate 200: 200 words take 1 minute, 450 words take 3, 1 word takes 1; 400 words at a filtered rate of 0 take 2 |
| ReadingTime.DecodedTextWords | hussainas-reading-time.php:47-51 | the decoded text "Hello & world" splits into the three words "Hello", "&" and "world" |
| ReadingTime.OneMinuteText | hussainas-reading-time.php:111-120 | one minute is formatted as "1 min read" |
| ReadingTime.OneMinuteLabel | hussainas-reading-time.php:104-120 | a post estimated at one minute gets the unfiltered label "1 min read" |
| ReadingTime.DecodedMarkupExample | hussainas-reading-time.php:40-51 | a post whose cleaned text is "Hello & world" (as the host's cleaners give for `<b>Hello &amp; world</b>`, which is assumed) takes 1 minute at rate 200 and is labelled "1 min read" |

## Left out

- Post lookup (`get_post`, including the fallback to the global `$post`) is not modelled; the model takes the lookup's result as an `Option<Post>`.
- `strip_shortcodes`, `wp_strip_all_tags` and `html_entity_decode` are library code outside this model. They are arbitrary functions in `Host`, applied in the source's order, and nothing is assumed about what they do.
- The `apply_filters` hook registry is not modelled. Each of the two hooks is one function in `Host`.
- For the rate hook, any non-integer value the filter might return and PHP's `(int)` cast of it are not modelled. The function already returns an `int`.
- The translation lookup behind `_n` is not modelled. `_n` behaves as it does with no translation loaded: the singular form for a count of exactly one, otherwise the plural. Both forms are "%d min read".
- `sprintf` handles only the `%d` directive with a non-negative argument. That is the only directive the label format uses, and minutes are never negative.
- `hussainas_display_estimated_reading_time` is not modelled, because it is output: it sanitises with `wp_kses_post` and `echo`es.
- The `ABSPATH` guard is not modelled, because it is runtime plumbing.
- ReadingTime.MinutesForText: floating-point division and `ceil` are replaced by exact integer ceiling division. For word counts near 2^53 a double quotient can round below the true value, and the model does not reproduce that.
- PHP's integer width is not modelled. Word counts and rates are unbounded integers.
- A `preg_split` failure (it returns `false`) is not modelled. It does not happen for this pattern on a string subject.
