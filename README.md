# ContentVault core, modelled in Dafny

ContentVault is a React front end for browsing a catalogue of technical
articles. This project models its core logic and proves properties of
that model:

- **Thumbnail resolution.** Percent-decoding, URL extraction and
  proxy-prefix stripping; the dev.to, Medium and Substack unwrappers; the
  proxy-by-proxy page fetch with its image check; and the per-card
  resolution in `ArticleCard`.
- **Thumbnail caches.** The standalone thumbnail cache, and the app-wide
  cache seeded from the article data.
- **Tags.** Counting, the `{name, count}` tag list, and the colour map
  with its shuffled palette.
- **Colours.** `darkenColor`.
- **Data utilities.** The in-place `filter` / `assign` / `updateTags`
  helpers and their JSON-returning exports.
- **Tag pickers.** The state machines of the two pickers.
- **Pages.** The home page's batch pagination, the new-article form and
  the tag page's filter.

**How the model is built.**

- Code that mutates state becomes imperative Dafny:
  - loops become methods proved against a specification function;
  - components with state become classes whose fields are the React
    state, with one method per handler or effect.
- Expression-only code becomes functions.
- The network, `DOMParser`, `new URL`, the clock and `Math.random` become
  parameters:
  - the `Web` oracle (page fetch, URL parse, HEAD and ranged-GET probes);
  - a `fetch` function for the card;
  - explicit swap choices (`picks`) for the shuffle;
  - `addedOn`, `formatDate` and `id` for the article record.
- JavaScript semantics are written out where they matter:
  - truthiness of `null` and `""`;
  - `parseInt(_, 16)`, `<<` through `ToInt32`, and `toString(16)` of `NaN`;
  - `slice` bounds;
  - spreading a string into characters;
  - `new Set` keeping first occurrences.

**Where the code and its design description disagree, the model follows
the code.**

- The page-image lookup in `fetchThumbnailFromPage` tries `og:image`, then
  `twitter:image`, then `link rel=image_src`. It does not try the
  `og:image:secure_url` or `itemprop="image"` tags.
- The card (`ArticleCard`) does its own fetch. It goes through one fixed
  proxy, reads only `og:image`, and does not check the response status.

## Model

| member | source | states |
|---|---|---|
| PercentDecoding.Decode | src/utils/thumbnailUtils.js:17 | `decodeURIComponent` on ASCII escapes: never longer than its input, identity on strings without `%`, non-empty on non-empty input |
| PercentDecoding.DecodeEncode | src/utils/thumbnailUtils.js:17 | decoding undoes percent-encoding for every string (round trip) |
| PercentDecoding.DecodeColon | src/utils/thumbnailUtils.js:14 | `%3A`, one of the trigger escapes, decodes to `:` |
| UrlNormalize.IterativeDecode | src/utils/thumbnailUtils.js:11-27 | the loop result equals the bounded decode specification (3 passes, stop on failure or no change); input without `%3A`/`%2F` is returned unchanged |
| UrlNormalize.IterDecodeBounded | src/utils/thumbnailUtils.js:13-21 | the result is the input decoded `k` times for some `k` between 0 and the number of passes |
| UrlNormalize.PlainNeedsNoDecode | src/utils/thumbnailUtils.js:14 | a string without `%` needs no decode pass |
| UrlNormalize.SettledIsFixed | src/utils/thumbnailUtils.js:14-24 | a string that needs no pass or does not change when decoded is returned unchanged |
| UrlNormalize.ScanTokenEnd | src/utils/thumbnailUtils.js:36-41 | the inner loop finds the earliest separator at or after the scheme, or the end |
| UrlNormalize.TokenEnd | src/utils/thumbnailUtils.js:36-41 | the end index is the first separator at or after the start, or the length; nothing before it is a separator |
| UrlNormalize.ExtractFirstUrl | src/utils/thumbnailUtils.js:30-46 | the method computes `FirstUrl` |
| UrlNormalize.FirstUrlNone | src/utils/thumbnailUtils.js:31-45 | null exactly for empty input or input containing neither `https://` nor `http://` |
| UrlNormalize.FirstUrlShape | src/utils/thumbnailUtils.js:34-42 | a found URL is a slice of the input that starts with its scheme, contains no separator and ends at a separator or the end |
| UrlNormalize.TokenShape | src/utils/thumbnailUtils.js:36-42 | the token cut at a scheme occurrence ends at a separator or the end, starts with the scheme and holds no separator |
| UrlNormalize.FirstUrlWhole | src/utils/thumbnailUtils.js:30-46 | an input that is a single `https` token is returned whole |
| UrlNormalize.HttpsWins | src/utils/thumbnailUtils.js:32-34 | whenever `https://` occurs, the result starts at its first occurrence, even after an earlier `http://` |
| UrlNormalize.StripProxyPrefixes | src/utils/thumbnailUtils.js:151-153 | the loop strips each known proxy prefix once, in list order |
| UrlNormalize.StripPrefixesSuffix | src/utils/thumbnailUtils.js:151-153 | the stripped string is a suffix of the input |
| UrlNormalize.StripPrefixesNoMatch | src/utils/thumbnailUtils.js:151-153 | a string starting with no proxy prefix is unchanged |
| UrlNormalize.LastSegment | src/utils/thumbnailUtils.js:54-55 | the last path segment contains no `/` |
| UrlNormalize.LastSegmentIsSuffix | src/utils/thumbnailUtils.js:54-55 | the last segment is a suffix of the path, preceded by `/` when shorter |
| UrlNormalize.LastSegmentAfterSlash | src/utils/thumbnailUtils.js:54-55 | the segment after the final `/` is the last segment |
| UrlNormalize.UnwrapDevto | src/utils/thumbnailUtils.js:48-66 | non-null iff the URL parses, the host ends in `dev.to`, the path contains `/dynamic/image` and the last segment is non-empty and decodes twice; the result is that double decode |
| UrlNormalize.DevtoUnwrapsEncodedAsset | src/utils/thumbnailUtils.js:48-66 | a dev.to image URL whose last segment is a once-encoded asset URL without `%` unwraps to that asset |
| UrlNormalize.UnwrapMedium | src/utils/thumbnailUtils.js:68-86 | non-null only for parsed hosts ending in `medium.com`; a result always starts with `https://miro.medium.com/` |
| UrlNormalize.UnwrapSubstack | src/utils/thumbnailUtils.js:88-105 | non-null only for Substack hosts; a result is the decoded last segment and starts with `http` |
| ThumbnailFetch.QuerySelector | src/utils/thumbnailUtils.js:144 | returns a matching element of the document, or none when no element matches |
| ThumbnailFetch.HintValue | src/utils/thumbnailUtils.js:145 | the value read is non-empty and is one of the element's attributes (`content` before `href`) |
| ThumbnailFetch.ImageHint | src/utils/thumbnailUtils.js:144-146 | a hint, when there is one, is non-empty |
| ThumbnailFetch.ImageHintPriority | src/utils/thumbnailUtils.js:144-145 | the first `og:image` tag decides the hint; without one, the first `twitter:image` tag decides; only without both is the first `image_src` link read, and with none of the three there is no hint; any hint comes from one of these elements |
| ThumbnailFetch.IsImageAccessible | src/utils/thumbnailUtils.js:107-131 | accessible iff the candidate is non-empty and the HEAD or the ranged GET answers ok with an `image/` content type |
| ThumbnailFetch.Candidates | src/utils/thumbnailUtils.js:156-189 | the candidate order ends with the extracted (or protocol-fixed) candidate followed by the decoded string |
| ThumbnailFetch.FirstAccessibleIsFirst | src/utils/thumbnailUtils.js:163-189 | the chosen candidate passed the check and no earlier one did; none is chosen only when none passes |
| ThumbnailFetch.FirstAccessibleAppend | src/utils/thumbnailUtils.js:163-189 | trying a list then another equals trying their concatenation |
| ThumbnailFetch.TrySiteUnwraps | src/utils/thumbnailUtils.js:163-183 | the site block returns the first accessible site unwrap |
| ThumbnailFetch.TryCandidates | src/utils/thumbnailUtils.js:156-189 | one attempt returns the first accessible candidate in order |
| ThumbnailFetch.ProxyList | src/utils/thumbnailUtils.js:1-8 | an omitted `proxies` argument is the default list of six proxies (also line 134) |
| ThumbnailFetch.FetchThumbnailFromPage | src/utils/thumbnailUtils.js:134-196 | resolves over the given proxies, or the default ones when the argument is omitted |
| ThumbnailFetch.TryProxies | src/utils/thumbnailUtils.js:136-195 | the proxy loop computes the proxy-by-proxy resolution, moving on after a throw, a not-ok response or a missing hint |
| ThumbnailFetch.ResolveAccessible | src/utils/thumbnailUtils.js:169-189 | every non-null result is non-empty and passed the accessibility check |
| ThumbnailFetch.ResolveFromFirstSuccess | src/utils/thumbnailUtils.js:136-146 | proxies are tried strictly in order; the result is the first attempt that yields one, and null when none does (also lines 190-195) |
| ThumbnailFetch.ProxyExhaustion | src/utils/thumbnailUtils.js:138-139 | when every proxy fails or answers not-ok, the result is null (also lines 190-195) |
| ThumbnailFetch.AttemptOrder | src/utils/thumbnailUtils.js:148-189 | within one attempt the result is the first accessible candidate: site unwraps, then the extracted candidate, then the decoded string |
| ThumbnailFetch.SecondProxyScenario | src/utils/thumbnailUtils.js:134-196 | first proxy throws, second serves a page whose `og:image` is a plain accessible URL: that URL is returned |
| ThumbnailCache.AddToCache | src/cache/ThumbnailCacheContext.js:8-10 | the entry for `url` becomes `t`, the keys gain only `url`, every other entry is unchanged |
| ThumbnailCache.LastWriteWins | src/cache/ThumbnailCacheContext.js:9 | two writes to one key equal the last write |
| ThumbnailCache.AddIdempotent | src/cache/ThumbnailCacheContext.js:9 | adding the same pair twice equals adding it once |
| ThumbnailCache.WritesCommute | src/cache/ThumbnailCacheContext.js:9 | writes to distinct keys commute |
| ThumbnailCache.AddToEmpty | src/cache/ThumbnailCacheContext.js:6-9 | a write to the initial empty cache gives the one-entry map |
| Articles.AllTagsMembers | src/context/AppContext.js:14-15 | a tag occurs in the flattened list iff some article carries it |
| Articles.TagCountsMeaning | src/context/AppContext.js:14-22 | the keys are exactly the occurring tags, and each count is its number of occurrences, at least 1 |
| Articles.TagCountsSnoc | src/context/AppContext.js:16-20 | one more occurrence increments an existing count or starts it at 1 |
| DataUtils.SwapMeaning | src/utils/dataUtils.js:5 | the swap exchanges two entries, keeps the others and the multiset |
| DataUtils.ShuffleFromPermutes | src/utils/dataUtils.js:3-6 | the countdown loop keeps the length and the multiset for any valid choices |
| DataUtils.ShuffledPermutes | src/utils/dataUtils.js:1-8 | the shuffle is a permutation of its input |
| DataUtils.ShortUnchanged | src/utils/dataUtils.js:3 | arrays of length 0 or 1 come back unchanged |
| DataUtils.ShuffleArray | src/utils/dataUtils.js:1-8 | returns a fresh array (the input is not touched) holding the specified shuffle, a permutation of the input |
| DataUtils.CountTags | src/utils/dataUtils.js:14-20 | the inner loop extends the counts of the tags seen so far by one article's tags |
| DataUtils.GetTagsCount | src/utils/dataUtils.js:10-22 | maps each occurring tag to its number of occurrences; keys are exactly the occurring tags, counts at least 1 |
| SeqUtils.DistinctMeaning | src/utils/dataManipulationUtils.js:38 | `new Set` keeps exactly the elements of its input, without duplicates |
| SeqUtils.DistinctOfDistinctFree | src/utils/dataManipulationUtils.js:38 | a duplicate-free list is its own set |
| SeqUtils.DistinctAbsorbs | src/utils/dataManipulationUtils.js:38 | appending elements already present does not change the set |
| SeqUtils.DistinctPrefix | src/utils/dataManipulationUtils.js:38 | the set of a prefix is a prefix of the set of the whole (first-occurrence order) |
| AppContext.TagEntries | src/context/AppContext.js:25 | one `{name, count}` entry per listed name, with that name's count |
| AppContext.TagsArray | src/context/AppContext.js:12-25 | each entry names an occurring tag with its number of occurrences |
| AppContext.TagsArrayMeaning | src/context/AppContext.js:14-25 | an entry is present iff its name occurs and its count is the occurrence count; counts at least 1; names distinct |
| AppContext.TagsArraySum | src/context/AppContext.js:14-25 | the counts sum to the total number of tag occurrences |
| AppContext.SumOfDistinct | src/context/AppContext.js:14-25 | occurrence counts over the distinct names add up to the length |
| AppContext.Seed | src/context/AppContext.js:29-34 | every seeded key is a non-empty URL mapped to a non-empty thumbnail |
| AppContext.SeedMeaning | src/context/AppContext.js:29-34 | a URL is seeded iff some article with non-empty `url` and `thumbnailUrl` has it; the value comes from the last such article |
| AppContext.SeedCache | src/context/AppContext.js:29-34 | the seeding loop builds the specified seed |
| AppContext.AppProvider.constructor | src/context/AppContext.js:7-8 | tags and cache start empty |
| AppContext.AppProvider.MountEffect | src/context/AppContext.js:10-36 | the effect sets the tags to the counted tag list and replaces the cache by the seed |
| ArticleCard.Entry | src/components/ArticleCard.jsx:13-31 | a truthy lookup is a present cache entry |
| ArticleCard.OgImage | src/components/ArticleCard.jsx:43-44 | a value exactly when the page has an `og:image` meta tag |
| ArticleCard.FetchOnlyOnMiss | src/components/ArticleCard.jsx:25-35 | the effect fetches iff there is no prop and no truthy cache entry, and uses the cache iff the entry is truthy |
| ArticleCard.Render | src/components/ArticleCard.jsx:70-80 | spinner iff loading; image iff not loading and the URL is truthy, showing that URL; placeholder otherwise |
| ArticleCard.Card.constructor | src/components/ArticleCard.jsx:13-14 | a truthy cache entry is shown and not loading; otherwise `""` and loading |
| ArticleCard.Card.RunEffect | src/components/ArticleCard.jsx:24-57 | per branch: the prop is used with no cache write; a truthy entry is used; a fetch error gives null with no write; a page gives the `og:image` value in both state and cache; loading ends false |
| ArticleCard.RefetchAfterFalsyImage | src/components/ArticleCard.jsx:31-57 | after storing a missing or empty `og:image`, the next run of the effect fetches again |
| ArticleCard.TruthyImageSettles | src/components/ArticleCard.jsx:31-47 | after storing a real image, the next run uses the cache |
| ArticleCard.MissingOgImageIsFalsy | src/components/ArticleCard.jsx:43-44 | a page without an `og:image` tag yields a falsy value |
| ArticleCard.FixedEffectAction | src/components/ArticleCard.jsx:25-35 | intended test: fetch iff no prop and no cache key at all |
| ArticleCard.FixedFetchesOnce | src/components/ArticleCard.jsx:31-47 | with the intended test, a stored URL is never fetched again, whatever was stored |
| ArticleCard.FixedAgreesOnHits | src/components/ArticleCard.jsx:31-35 | both tests agree whenever the entry is truthy |
| ColorUtils.HexPrefixLength | src/utils/colorUtils.js:7-9 | the longest run of leading hex digits |
| ColorUtils.ParseHex | src/utils/colorUtils.js:7-9 | `parseInt(_, 16)` is NaN exactly when no hex digit follows the optional whitespace, sign and `0x` |
| ColorUtils.Substring | src/utils/colorUtils.js:7-9 | clamped `substring` is never longer than the requested range |
| ColorUtils.Darken | src/utils/colorUtils.js:11-13 | `max(0, c - amount)`: NaN stays NaN, never negative, and never above the original for a non-negative channel and an amount of at least 0 |
| ColorUtils.ToInt32 | src/utils/colorUtils.js:15 | the 32-bit conversion is in range and the identity on in-range integers |
| ColorUtils.ShiftByte | src/utils/colorUtils.js:15 | shifting a small channel left multiplies by a power of two |
| ColorUtils.DarkenColor | src/utils/colorUtils.js:1-16 | input not starting with `#` is returned unchanged; otherwise the result starts with `#` |
| ColorUtils.ChannelsOfWellFormed | src/utils/colorUtils.js:6-9 | on `#rrggbb` the channels are the hex pairs at offsets 1-2, 3-4 and 5-6 |
| ColorUtils.ParsePair | src/utils/colorUtils.js:7-9 | two hex digits parse to their value, below 256 |
| ColorUtils.HexDigitsOfFixed | src/utils/colorUtils.js:15 | zero-padded hex digits read back as the value |
| ColorUtils.HexLeadingOne | src/utils/colorUtils.js:15 | `(16^n + x).toString(16)` is `1` followed by `x` padded to `n` digits |
| ColorUtils.PackedBytes | src/utils/colorUtils.js:15 | packing three bytes prints as `1` and six padded lowercase digits |
| ColorUtils.ThreeDigitGroups | src/utils/colorUtils.js:15 | three groups of `n` padded digits packed base `16^n` print as the three groups side by side |
| ColorUtils.DarkenWellFormed | src/utils/colorUtils.js:1-16 | on `#rrggbb` the result is `#` plus six zero-padded lowercase digits of `max(0, c - amount)` per channel, again well formed |
| ColorUtils.FixedHexDigits | src/utils/colorUtils.js:15 | the padded digits are lowercase hex digits |
| ColorUtils.DarkenZeroKeepsChannels | src/utils/colorUtils.js:11-15 | amount 0 keeps the three channels |
| ColorUtils.DefaultChannels | src/utils/colorUtils.js:1 | the default colour `#3490dc` has channels 0x34, 0x90, 0xdc |
| ColorUtils.DefaultDarkened | src/utils/colorUtils.js:1-16 | the defaults darken to `#2a86d2` |
| ColorUtils.ShortColorGivesNaN | src/utils/colorUtils.js:9-15 | a `#` string too short for a blue channel gives `#aN` |
| DataManipulation.FilterElements | src/utils/dataManipulationUtils.js:12-24 | the result is no longer than the input and holds only input elements that meet every condition |
| DataManipulation.FilterMembers | src/utils/dataManipulationUtils.js:12-24 | an element is kept iff every `where` key matches (array contains, scalar strictly equal) |
| DataManipulation.FilterAppend | src/utils/dataManipulationUtils.js:13 | the filter keeps order: it distributes over concatenation |
| DataManipulation.FilterEmptyWhere | src/utils/dataManipulationUtils.js:14 | an empty `where` keeps everything |
| DataManipulation.Assign | src/utils/dataManipulationUtils.js:30 | `Object.assign`: keys are the union, `properties` wins on shared keys, other keys kept |
| DataManipulation.BaseAddPropertiesToElements | src/utils/dataManipulationUtils.js:27-32 | in place, each selected element gets the properties merged in, the others are untouched |
| DataManipulation.AddPropertiesIdempotent | src/utils/dataManipulationUtils.js:27-32 | adding the same properties twice equals adding them once |
| DataManipulation.TagUnionMeaning | src/utils/dataManipulationUtils.js:38 | the new tags hold exactly the old and new tags, without duplicates, old tags first in first-occurrence order |
| DataManipulation.TagUnionIdempotent | src/utils/dataManipulationUtils.js:38 | a second union with the same tags changes nothing |
| DataManipulation.WithTags | src/utils/dataManipulationUtils.js:38 | only the `tags` field changes |
| DataManipulation.FirstFailure | src/utils/dataManipulationUtils.js:37-38 | the first selected element whose tags cannot be spread, or the length |
| DataManipulation.BaseUpdateTags | src/utils/dataManipulationUtils.js:35-40 | in place, selected elements get the union up to the first one whose tags cannot be spread; completes iff there is none |
| DataManipulation.WithTagsStaysSelected | src/utils/dataManipulationUtils.js:36-38 | an updated element whose tags were an array still matches the same `where` |
| DataManipulation.UpdateTagsIdempotent | src/utils/dataManipulationUtils.js:35-40 | on every input, a second update throws at the same element as the first (or completes when it did) and changes nothing, string tags included |
| DataManipulation.UpdatesKeepShape | src/utils/dataManipulationUtils.js:27-40 | neither update adds, removes or reorders elements; unselected ones are untouched |
| DataManipulation.AddPropertiesToElements | src/utils/dataManipulationUtils.js:2-43 | the export returns `JSON.stringify(undefined)` after updating in place |
| DataManipulation.UpdateTags | src/utils/dataManipulationUtils.js:2-44 | the export returns `JSON.stringify(undefined)`, or throws when the base function throws |
| TagColor.ColorAt | src/context/TagColorContext.js:16 | `undefined` iff the palette is empty, else the entry at index mod length, a palette colour |
| TagColor.ColorMapKeys | src/context/TagColorContext.js:15-17 | exactly the tag names get an entry |
| TagColor.ColorMapLastWins | src/context/TagColorContext.js:15-17 | a duplicated name gets the colour of its last index |
| TagColor.TagAtIndexColor | src/context/TagColorContext.js:16 | with a non-empty palette, the tag at index `i` gets `shuffled[i mod n]` |
| TagColor.ColorsCycle | src/context/TagColorContext.js:16 | colours repeat with the period of the palette |
| TagColor.BuildTagColorMap | src/context/TagColorContext.js:12-19 | the palette is the specified shuffle, a permutation of the configured colours, and the map is the specified colour map |
| TagMultiSelect.Wrap | src/components/TagMultiSelect.jsx:31-33 | a string tag becomes `{name}`, an object is kept |
| TagMultiSelect.InitialSelection | src/components/TagMultiSelect.jsx:30-34 | the initial selection wraps each given tag, in order |
| TagMultiSelect.LowerNames | src/components/TagMultiSelect.jsx:43 | the lower-cased names, index by index |
| TagMultiSelect.Names | src/components/TagMultiSelect.jsx:97 | the names, index by index |
| TagMultiSelect.Reported | src/components/TagMultiSelect.jsx:94-99 | the 'add' variant reports the selected names; the 'search' variant reports nothing |
| TagMultiSelect.MatchingMembers | src/components/TagMultiSelect.jsx:53-58 | a tag passes the filter iff its name contains the text case-insensitively and is not selected |
| TagMultiSelect.MatchingAppend | src/components/TagMultiSelect.jsx:53 | the filter keeps the order of `allTags` |
| TagMultiSelect.AstralTextSearches | src/components/TagMultiSelect.jsx:49-63 | a search text of two emoji counts four code units, so it is filtered and the search dropdown shows the match (also lines 177-179) |
| TagMultiSelect.SuggestionsMeaning | src/components/TagMultiSelect.jsx:49-63 | at most ten suggestions, a prefix of the full filter in order, none for a search text under 3 UTF-16 code units (`text.length`) |
| TagMultiSelect.SelectMeaning | src/components/TagMultiSelect.jsx:111-113 | appends iff no selected tag has the same lower-cased name; keeps the names distinct |
| TagMultiSelect.RemoveNamedMeaning | src/components/TagMultiSelect.jsx:125-129 | drops exactly the tags with that name and keeps the rest in order |
| TagMultiSelect.RemoveKeepsDistinct | src/components/TagMultiSelect.jsx:125-129 | removal keeps the names distinct |
| TagMultiSelect.DropLast | src/components/TagMultiSelect.jsx:160 | drops the last tag; no-op on an empty selection |
| TagMultiSelect.Picker.constructor | src/components/TagMultiSelect.jsx:27-38 | initial selection wrapped, empty text and suggestions, closed |
| TagMultiSelect.Picker.InputChange | src/components/TagMultiSelect.jsx:103-106 | sets the text and opens the dropdown |
| TagMultiSelect.Picker.Open | src/components/TagMultiSelect.jsx:187-205 | a click on the chips or focus on the input opens the dropdown and changes nothing else |
| TagMultiSelect.Picker.ClearInput | src/components/TagMultiSelect.jsx:210-214 | the clear button empties the text and the suggestions and keeps the selection and the open state |
| TagMultiSelect.Picker.Toggle | src/components/TagMultiSelect.jsx:223 | the toggle button flips the open state and changes nothing else |
| TagMultiSelect.Picker.ApplyFilter | src/components/TagMultiSelect.jsx:46-71 | the suggestions become the filter of the current text and selection |
| TagMultiSelect.Picker.TagSelect | src/components/TagMultiSelect.jsx:108-123 | selection updated by `Select`; text and suggestions cleared; closed when `closeOnSelect` |
| TagMultiSelect.Picker.TagRemove | src/components/TagMultiSelect.jsx:125-129 | the selection loses the tags with that name; nothing else changes |
| TagMultiSelect.Picker.ClearAll | src/components/TagMultiSelect.jsx:131-133 | empties the selection only |
| TagMultiSelect.Picker.EnterChoice | src/components/TagMultiSelect.jsx:146-147 | a single suggestion is selected by its name |
| TagMultiSelect.Picker.KeyDown | src/components/TagMultiSelect.jsx:136-162 | Enter selects the single suggestion or creates the trimmed text (add variant) and always clears text and suggestions; Backspace on empty text drops the last tag; other keys change nothing |
| TagMultiSelect.Picker.SearchIconClick | src/components/TagMultiSelect.jsx:166-172 | in the search variant with an `onSearch` prop hands the selection to `onSearch` and clears text and suggestions; otherwise nothing happens |
| TagMultiSelect.CanShowDropdown | src/components/TagMultiSelect.jsx:177-179 | the search dropdown shows while something is selected, or for a text of 3 or more UTF-16 code units with suggestions; the add dropdown never shows without text and always shows with text and suggestions |
| TagMultiSelect.Picker.ShowDropdown | src/components/TagMultiSelect.jsx:181 | a closed dropdown never shows; an open one shows exactly when `canShowDropdown` holds |
| TagMultiSelect.EnterKeepsDistinct | src/components/TagMultiSelect.jsx:136-157 | Enter keeps the lower-cased names distinct |
| TagMultiSelect.EnterCreatesTag | src/components/TagMultiSelect.jsx:148-150 | new trimmed text without a single suggestion is appended as `{name: trimmed}` |
| TagMultiSelect.DropdownAfterSelect | src/components/TagMultiSelect.jsx:114-115 | after a selection the add dropdown hides and the search dropdown shows the selection (also lines 177-179) |
| TagMultiSelect.AddDropdownOffersCreate | src/components/TagMultiSelect.jsx:179 | with text and no suggestions, the add dropdown shows iff the trimmed text is not yet selected |
| TagDropdownSearch.MatchingTagsMembers | src/components/TagDropdownSearch.jsx:12-16 | a tag is suggested iff it contains the text case-insensitively; selected tags are not excluded |
| TagDropdownSearch.MatchingTagsAppend | src/components/TagDropdownSearch.jsx:13 | suggestions keep input order |
| TagDropdownSearch.Suggestions | src/components/TagDropdownSearch.jsx:11-19 | no suggestions under 3 UTF-16 code units (`searchText.length`) |
| TagDropdownSearch.AstralTextSearches | src/components/TagDropdownSearch.jsx:11-15 | two emoji, four code units, are long enough to search and match themselves |
| TagDropdownSearch.WithoutMembers | src/components/TagDropdownSearch.jsx:33-35 | removal deletes every occurrence of the tag and nothing else |
| TagDropdownSearch.WithoutKeepsDistinct | src/components/TagDropdownSearch.jsx:33-35 | removal keeps the selection duplicate-free |
| TagDropdownSearch.Dropdown.constructor | src/components/TagDropdownSearch.jsx:4-7 | empty text, suggestions and selection |
| TagDropdownSearch.Dropdown.ApplyFilter | src/components/TagDropdownSearch.jsx:10-20 | the suggestions become those of the current text |
| TagDropdownSearch.Dropdown.InputChange | src/components/TagDropdownSearch.jsx:22-24 | sets the text only |
| TagDropdownSearch.Dropdown.TagSelect | src/components/TagDropdownSearch.jsx:26-31 | appends iff absent, keeps the selection duplicate-free, clears the text |
| TagDropdownSearch.Dropdown.TagRemove | src/components/TagDropdownSearch.jsx:33-35 | removes every occurrence and keeps the selection duplicate-free |
| TagDropdownSearch.Dropdown.ClearAll | src/components/TagDropdownSearch.jsx:37-39 | empties the selection |
| HomePage.SliceBound | src/pages/HomePage.jsx:23 | a `slice` bound is clamped to the length |
| HomePage.JsSlice | src/pages/HomePage.jsx:23 | `slice` gives the clamped range, or nothing when it is empty |
| HomePage.FetchArticles | src/pages/HomePage.jsx:21-28 | the new index never exceeds the length; from a valid cursor the batch has at most 12 articles |
| HomePage.ShownIndicesMeaning | src/pages/HomePage.jsx:22-40 | an index below the cursor is shown iff it is not 12 modulo 13 |
| HomePage.ShownMeaning | src/pages/HomePage.jsx:22-39 | the shown articles are the data at those indices, in order |
| HomePage.ShownRun | src/pages/HomePage.jsx:22-23 | a batch starting at a multiple of 13 is shown entirely |
| HomePage.FetchExtendsShown | src/pages/HomePage.jsx:22-40 | one load appends exactly the newly shown articles and reaches a valid cursor |
| HomePage.FetchExhausted | src/pages/HomePage.jsx:41 | `hasMore` becomes false only at the end of the data; otherwise the cursor advances |
| HomePage.Home.constructor | src/pages/HomePage.jsx:15-18 | no articles, cursor -1, not loading, more to load |
| HomePage.Home.BeginLoad | src/pages/HomePage.jsx:32-33 | no-op when nothing more or already loading; otherwise loading starts |
| HomePage.Home.FinishLoad | src/pages/HomePage.jsx:36-47 | appends the batch, moves the cursor, sets `hasMore`, ends loading; the shown articles stay those at shown indices |
| HomePage.AfterLoadsShown | src/pages/HomePage.jsx:22-40 | `k` loads put the cursor at `min(13k - 1, n)` and show the shown indices below it |
| HomePage.ThirtyArticlesSkipTwo | src/pages/HomePage.jsx:22-23 | with 30 articles, three loads show 28 and never indices 12 and 25 |
| HomePage.FixedFetch | src/pages/HomePage.jsx:21-28 | intended paging: the batch starts at the cursor, ends where the next begins |
| HomePage.FixedAfterLoadsPrefix | src/pages/HomePage.jsx:21-28 | with intended paging, `k` loads show exactly the first `min(12k, n)` articles |
| NewArticlePage.HandleInputChange | src/pages/NewArticlePage.jsx:26-43 | a text or select change sets only that field; a checkbox sets only its boolean; unchecking `read` also clears the rating |
| NewArticlePage.ChangesKeepConsistent | src/pages/NewArticlePage.jsx:13-43 | the initial form has no rating without `read` and a listed type, and every event the rendered form can produce keeps that (also lines 147-158, 173-182) |
| NewArticlePage.ReachableConsistent | src/pages/NewArticlePage.jsx:13-43 | every form reachable from the initial one is consistent (also lines 147-158) |
| NewArticlePage.TrimmedNonEmptyMeaning | src/pages/NewArticlePage.jsx:50-51 | the entries are the non-empty trims of the pieces |
| NewArticlePage.AuthorListMeaning | src/pages/NewArticlePage.jsx:48-51 | the authors are the non-empty trimmed comma-separated entries: each non-empty, trimmed and comma-free |
| NewArticlePage.Submit | src/pages/NewArticlePage.jsx:45-89 | rating present iff `read`; tags are the picker's names; empty placeholders; `url`/`publication` trimmed; `language` trimmed or `English`, never empty |
| NewArticlePage.SubmittedFieldsTrimmed | src/pages/NewArticlePage.jsx:74-83 | the submitted `url`, `publication` and `language` are already trimmed |
| NewArticlePage.SubmittedRating | src/pages/NewArticlePage.jsx:76-84 | a consistent form submits a rating only with `read`, and a listed type |
| TagContentPage.FilterByTagsMembers | src/pages/TagContentPage.jsx:19-21 | an article is listed iff one of its tags is selected |
| TagContentPage.FilterByTagsAppend | src/pages/TagContentPage.jsx:19 | the list keeps the order of the data |
| TagContentPage.NoNamesNoArticles | src/pages/TagContentPage.jsx:20 | no selected name, no article |
| TagContentPage.SelectedTags | src/pages/TagContentPage.jsx:24 | one `{name, count: 0}` per selected name, in order |
| TagContentPage.Page | src/pages/TagContentPage.jsx:15-25 | throws iff there are no selected names in the navigation state; otherwise the filtered list and the tag entries |
| Strings.Utf16Length | src/components/TagMultiSelect.jsx:51 | `length` lies between the number of characters and twice that, and is 0 only for the empty string |
| Strings.Utf16LengthOfBmp | src/components/TagMultiSelect.jsx:51 | on text inside the Basic Multilingual Plane, `length` is the number of characters |
| Strings.Utf16LengthAppend | src/components/TagMultiSelect.jsx:51 | lengths add up over concatenation |
| Strings.TrimIdempotent | src/pages/NewArticlePage.jsx:50-83 | trimming twice is trimming once |
| Strings.JoinSplit | src/utils/thumbnailUtils.js:54 | splitting and joining on one separator gives back the string |
| Strings.ContainsIff | src/utils/thumbnailUtils.js:14 | `includes` holds iff the pattern occurs at some index |

## Left out

- **Text encodings and case.**
  - PercentDecoding.Decode: UTF-8 is not decoded; any escape of a byte at or above 0x80 is treated as a failure.
  - Strings.ToLower: only ASCII letters are lower-cased.
  - ColorUtils.Substring: offsets count characters, where JavaScript's `substring` counts UTF-16 code units. The two differ only for a colour string holding a character above U+FFFF, which is never a hex digit. Such a colour would have its channels read at other offsets than in JavaScript.
  - Other string offsets also count characters: `indexOf`, `slice` and `split` in UrlNormalize and Strings. There an offset only ever cuts a string at a position found by searching the same string, so the pieces agree with JavaScript's. `length` comparisons against constants go through Strings.Utf16Length.
- **The network, timing and concurrency.**
  - ThumbnailFetch.IsImageAccessible: the timeout parameter has no effect in the source and is not modelled.
  - ThumbnailFetch: timing, cancellation and concurrency between cards are not modelled.
  - ArticleCard.Card.RunEffect: the asynchronous fetch is modelled as completed within the effect, so a card unmounting mid-fetch and overlapping runs are not modelled.
- **Outside inputs replaced by parameters.**
  - `Math.random` becomes the `picks` sequence of DataUtils.ShuffleArray.
  - TagColor.BuildTagColorMap: src/config/colors is not part of this model, so the palette is a parameter.
  - NewArticlePage.Submit: the date, its formatting and the generated id are parameters.
  - JSON formatting of the generated record and of the decorated exports is not modelled.
- **Object key order and prototype keys.**
  - AppContext.TagsArray: tags come in first-occurrence order. `Object.entries` lists integer-like keys first, and that order is not modelled.
  - Keys inherited from `Object.prototype` are not modelled anywhere: `in` and truthiness on a plain object see them in JavaScript, so a tag named `constructor` behaves differently there.
- **Colour edge cases.**
  - ColorUtils.DarkenColor: `amount` is an integer. Fractional, infinite and non-numeric amounts are not modelled.
- **Data utilities.**
  - DataManipulation.BaseAddPropertiesToElements: elements are values. Two array slots holding one shared object are updated as two separate elements.
  - DataManipulation.BaseUpdateTags: elements are values in the same way.
- **Tag picker (TagMultiSelect).**
  - TagMultiSelect.Picker.ApplyFilter: the debounce delay and its cancellation are not modelled. The filter runs as one step.
  - TagMultiSelect.Picker: these are not modelled:
    - the document click and Escape listeners (lines 74-91);
    - moving the keyboard focus (`inputRef.current.focus()` and the `setTimeout` around it); the opening of the dropdown on focus is modelled by TagMultiSelect.Picker.Open;
    - the `overlay` layout prop.
  - A string entry of `allTags` is represented as a tag with that name. Mixing tag shapes that the variant does not expect, such as objects in the add variant or strings in the search variant, is not modelled.
- **Home page.**
  - HomePage.Home.FinishLoad: the error branch (lines 43-45) is not modelled. `fetchArticles` only slices a bundled array and cannot throw. The `if (newArticles)` test is always true for an array.
- **Tag page.**
  - TagContentPage.Page: a navigation state whose `selectedTagNames` is not an array is not modelled.
- **Outside the model.** Rendering and JSX markup, routing, themes, fonts, settings, and the Python thumbnail script.

## Findings

| source | as written | input that shows it | evidently intended | confidence | as-written member | corrected member |
|---|---|---|---|---|---|---|
| src/pages/HomePage.jsx:22-23 | the cursor is set to the exclusive end of the batch, and the next batch starts one past it | 30 articles: three loads show indices 0-11, 13-24 and 26-29; indices 12 and 25 are never shown | each batch starts where the previous one ended, so `k` loads show the first `min(12k, n)` articles | high, not executed | HomePage.ThirtyArticlesSkipTwo | HomePage.FixedAfterLoadsPrefix |
| src/components/ArticleCard.jsx:31, 44-47, 57 | a page without an `og:image` (or with an empty one) stores `null` or `""`, which the cache test treats as a miss; the stored write replaces the cache object, which is an effect dependency | a card with no `thumbnail` prop whose page has no `og:image` tag: every run of the effect fetches again | a URL with a cache entry counts as resolved, even a `null` one, so each URL is fetched once | medium, not executed | ArticleCard.RefetchAfterFalsyImage | ArticleCard.FixedFetchesOnce |
