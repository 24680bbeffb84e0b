# Hostal Sol y Lago page script: a Dafny model

This project models the behaviour of `script.js`, the script of the Hostal Sol y Lago
website (Copacabana, Bolivia). The model covers four parts of the script.

- **The bilingual text swap.** This part has four pieces:
  - the phrase table `translations`, with an `es` map and an `en` map;
  - `switchLanguage`, which sets the current language, the active language
    button, the document's `lang` attribute and the stored preference;
  - `updatePageContent`, the rewrite pass over the page's text elements;
  - the special case for WhatsApp links, and the meta tags.

  The model also covers the click guard on the language buttons and the startup
  choice of language.
- **The restaurant slideshow.** `showSlide`, `nextSlide` and `currentSlide`, over
  the "active" marks of the slides and of the dots.
- **The contact form check.** All four fields must be filled in, then the address
  must match `/^[^\s@]+@[^\s@]+\.[^\s@]+$/`.
- **The JavaScript string operations these rely on.** These are `trim`, `includes`
  and `replace` with a global literal pattern.

## Modules

| file | module | contents |
|---|---|---|
| `wrappers.dfy` | `Wrappers` | `Option` |
| `js_strings.dfy` | `JsStrings` | `\s`, `trim`, `includes`, replace-all and chains of replace-all, with their lemmas |
| `whatsapp_link.dfy` | `WhatsAppLink` | the four message fragments in both languages, the href substitution, its round trip |
| `page_content.dfy` | `PageContent` | the element records, the rewrite of one element and of the page, the meta tags, the buttons, and the `Page` class holding the language session |
| `phrase_table.dfy` | `PhraseTable` | the two object literals as lists of declarations, section by section, the map such a literal denotes, the keys sections share, the mirror lemmas and the "Free WiFi" duplicate |
| `slideshow.dfy` | `Slideshow` | JavaScript `%`, the index arithmetic, and the `Slideshow` class over two `array<bool>` |
| `contact_form.dfy` | `ContactForm` | the submitted fields, the email pattern, the verdict |

### Object literals

A JavaScript object literal that declares a key twice keeps the last declaration.

- `PhraseTable.ObjectLiteral` turns a list of declarations into the map it denotes.
- `LastDeclarationWins` proves that the last declaration of a key gives its text.

The `es` literal declares `'Free WiFi'` twice, at line 344 and at line 409. The `es`
map therefore sends "Free WiFi" to "WiFi gratuito". Each section of `es` mirrors
the matching section of `en`. Two sections of the same literal share no key,
except that pair of `es` sections, which shares "Free WiFi". `SectionsMirror`
shows what follows for literals built that way: every `es` text translates
back, and so does every `en` text except those whose English is "Free WiFi".
The two whole maps are therefore not quite inverse: `FreeWiFiLabelDrift` shows
that a label "WiFi Gratuito" switched to English and back reads "WiFi gratuito".

### Where the code decides

Two behaviours of `script.js` are easy to misread. The model follows the code.

- **Labels with digits.** The numeric filter at line 576 skips only texts made
  entirely of digits, whitespace and `-+()`. A label that mixes digits and
  letters, such as "24h Reception", is looked up like any other text
  (`SkipRuleExamples`).
- **Stored language codes.** Line 647 falls back to "es" only when the stored
  value is absent or empty. Any other stored code, such as "fr", is switched to
  as it is. For a code the table lacks, no text changes. The meta tags and
  WhatsApp links take their Spanish form, because the code tests `lang === 'en'`
  and treats every other code as Spanish.

## Model

| member | source | states |
|---|---|---|
| JsStrings.Trim | script.js:573 | the trimmed text neither starts nor ends with whitespace, is empty exactly when the text is all whitespace, and is the text itself when nothing is to trim |
| JsStrings.TrimCutsWhitespace | script.js:573 | `trim` removes whitespace only, from both ends: the result is the slice of the text between two whitespace runs |
| JsStrings.IncludesIff | script.js:581 | `includes` holds exactly when the pattern occurs at some index |
| JsStrings.ReplaceAll | script.js:606-614 | a string without the pattern comes back unchanged |
| JsStrings.ReplaceAllSole | script.js:606-614 | when the pattern occurs exactly once, a global replace swaps exactly that occurrence and keeps everything around it |
| JsStrings.ReplaceChain | script.js:606-614 | a chain of replaces over a string that includes none of its patterns leaves it unchanged |
| JsStrings.ReplaceChainSole | script.js:606-614 | a chain swaps the single occurrence of one of its patterns when no other pattern occurs before or after the swap |
| WhatsAppLink.UpdateHref | script.js:603-617 | the href rewrite is the four substitutions, Spanish to English for "en" and English to Spanish for every other code; an href with none of the four source fragments keeps its value |
| WhatsAppLink.FragmentRoundTrip | script.js:606-614 | an href holding one Spanish fragment once becomes the English form under "en", and a pass for any other code restores it exactly; the same holds for each of the four pairs |
| WhatsAppLink.MarkerSurvivesSwap | script.js:581 | a marker the pass tests for ("whatsapp", "tel:", "mailto:") is neither created nor destroyed by swapping a fragment that lacks one of the marker's characters, when the characters on either side of the fragment are not in the marker |
| WhatsAppLink.MessageBoundariesAreNeutral | script.js:581 | the delimiters of a message parameter ('=' before it, '%' or '&' after it) occur in none of the markers "whatsapp", "tel:" and "mailto:" |
| WhatsAppLink.MarkersSurviveFragmentSwap | script.js:606-614 | swapping fragment i from Spanish to English keeps "whatsapp" in the href (the test at line 581) and keeps "tel:" and "mailto:" out of it (the selector at line 564) |
| WhatsAppLink.ChainSwapsPair | script.js:606-614 | the chain of four replaces turns a message holding fragment 0 followed by "%20" and fragment j into the same message with both fragments in the other language: the first replace swaps fragment 0 and replace j swaps fragment j |
| WhatsAppLink.ChainedFragmentsRoundTrip | script.js:606-614 | an href holding fragment 0 and fragment j (1 to 3) of the Spanish message, each once, becomes the English message under "en", and a pass for any other code restores it exactly |
| WhatsAppLink.MarkersSurviveChainedSwap | script.js:606-614 | swapping a chained message from Spanish to English keeps "whatsapp" in the href (line 581) and keeps "tel:" and "mailto:" out of it (line 564) |
| PageContent.SkipRuleExamples | script.js:576 | "+591 73064877" is skipped; "24h Reception" is not |
| PageContent.LookupIsExact | script.js:587 | the lookup finds v for a text exactly when the map for the language has that very text as a key and v, its translation, is non-empty: no case folding, no partial match |
| PageContent.UpdateWhatsAppLink | script.js:596-618 | the label gets the ordinary lookup (a miss keeps it); the href gets the substitution for the language; an href without a source fragment is unchanged; tag and context are kept |
| PageContent.RewriteElement | script.js:566-590 | a non-candidate or a skipped text (empty or numeric-like after trimming) leaves the element unchanged; otherwise the text becomes the translation of the trimmed text, or stays as it was on a miss and for a language the table lacks; the href changes only for WhatsApp anchors, and only by the substitution |
| PageContent.RewriteAll | script.js:566-590 | the pass rewrites every element in place and keeps the number and order of elements |
| PageContent.SwitchTwice | script.js:587-588 | two switches on a translatable element take its text through both lookups and change nothing else |
| PageContent.SwitchBackRestoresText | script.js:587-588 | where the two maps mirror each other at an element's text, switching there and back restores the trimmed text and nothing else changes |
| PageContent.SwitchBackRestoresWhatsAppAnchor | script.js:596-618 | a WhatsApp anchor switched to "en" and back to "es" gets its trimmed label and its exact href back, when the href holds one known fragment as a message parameter |
| PageContent.SwitchBackRestoresChainedAnchor | script.js:596-618 | a WhatsApp anchor whose href holds the chained message ("Hola, me interesa" then fragment j) switched to "en" and back to "es" gets its trimmed label and its exact href back |
| PageContent.AnchorRoundTrip | script.js:596-618 | the anchor round trip, given that the two href rewrites undo each other and the English href is still a selected WhatsApp link |
| PageContent.RewriteTranslatedAnchor | script.js:581-584 | a translatable WhatsApp anchor whose label has a translation gets that label and the substituted href |
| PageContent.RewriteTranslatedText | script.js:587-588 | a translatable element whose text has a translation gets exactly that text |
| PageContent.MetaTagsFollowLanguage | script.js:620-631 | the title and the description are the English ones exactly for "en" and the Spanish ones exactly for every other code |
| PageContent.MarkActive | script.js:545-550 | exactly the buttons whose `data-lang` equals the language are active; every button keeps its `data-lang` |
| PageContent.StartupLanguage | script.js:647 | the stored preference when it is present and non-empty, whatever code it holds; "es" when it is absent or empty |
| PageContent.StartupIsStable | script.js:647-648 | a start from the preference a start stored (line 559) picks the same language again |
| PageContent.Page.constructor | script.js:538 | the page as loaded, with current language "es" |
| PageContent.Page.UpdateMetaTags | script.js:620-631 | the title and the description take the pair for the language where the page has them, and stay absent otherwise |
| PageContent.Page.VisitElement | script.js:566-590 | one iteration of the pass, with its early returns, yields the element's rewrite |
| PageContent.Page.UpdatePageContent | script.js:562-594 | the elements become their rewrites in document order, then the meta tags are updated; nothing else changes |
| PageContent.Page.SwitchLanguage | script.js:541-560 | the current language, the stored preference and the document language become the language; the buttons are marked; the elements are rewritten; the meta pair is updated |
| PageContent.Page.ClickLanguageButton | script.js:636-643 | a click switches exactly when its `data-lang` is non-empty and differs from the current language, and changes nothing otherwise |
| PageContent.Page.Initialize | script.js:634-649 | startup always performs a full switch, to `StartupLanguage` of the stored preference |
| PhraseTable.ObjectLiteral | script.js:301-536 | the map an object literal denotes has exactly the declared keys |
| PhraseTable.LastDeclarationWins | script.js:301-536 | the last declaration of a key gives its text in the map |
| PhraseTable.LastDeclarationOf | script.js:301-536 | every declared key has a last declaration |
| PhraseTable.UndeclaredSuffix | script.js:301-536 | declarations of other keys written after a key leave its text unchanged |
| PhraseTable.Swap | script.js:419-535 | the swapped list declares every pair the other way round, in the same order |
| PhraseTable.MirrorIsInverse | script.js:301-536 | mirrored lists denote maps that send each other's texts back to their keys |
| PhraseTable.SuffixWins | script.js:301-536 | a key that a later part of a literal declares takes that part's text, whatever the earlier part declares |
| PhraseTable.SharedLeft | script.js:301-536 | when both parts share only keys in a set with a third list, so does their join |
| PhraseTable.JoinOverrides | script.js:301-536 | appending a part without repeated keys overrides only declarations of the first part: ones already overridden there, or ones whose key the two parts share |
| PhraseTable.JoinedShared | script.js:301-536 | when every section shares only keys in a set with a list, so does the join of the sections |
| PhraseTable.JoinedOverrides | script.js:301-536 | in a literal written as sections without repeated keys that pairwise share only keys in a set, every overridden declaration declares a key in that set |
| PhraseTable.JoinedDistinct | script.js:301-536 | sections without repeated keys that share no key form a literal without repeated keys |
| PhraseTable.JoinedSwap | script.js:419-535 | swapping every section swaps the whole literal |
| PhraseTable.MirrorUpToShared | script.js:301-536 | for a literal and its swap, where the swap repeats no key and the literal overrides only keys in a set: every text of the first map translates back, and every text of the second does unless its translation is in the set |
| PhraseTable.SectionsMirror | script.js:301-536 | literals written as mirrored sections, pairwise sharing no key in `en` and only keys in a set in `es`: every `es` text translates back, and every `en` text does unless its English is in the set |
| PhraseTable.NavigationMirror | script.js:304-308 | the `en` navigation section is the `es` one swapped, neither declares a key twice, and their maps are inverse (`en` section at lines 421-425) |
| PhraseTable.HeroMirror | script.js:311-313 | the same for the hero sections (`en` section at lines 428-430) |
| PhraseTable.AboutMirror | script.js:316-323 | the same for the about sections (`en` section at lines 433-440) |
| PhraseTable.RoomsMirror | script.js:326-340 | the same for the rooms sections (`en` section at lines 443-457) |
| PhraseTable.AmenitiesMirror | script.js:343-359 | the same for the amenities sections (`en` section at lines 460-476) |
| PhraseTable.GalleryMirror | script.js:362-368 | the same for the gallery sections (`en` section at lines 479-485) |
| PhraseTable.RestaurantMirror | script.js:371-380 | the same for the restaurant sections (`en` section at lines 488-497) |
| PhraseTable.TestimonialsMirror | script.js:383 | the same for the testimonials sections (`en` section at line 500) |
| PhraseTable.LocationMirror | script.js:386-393 | the same for the location sections (`en` section at lines 503-510) |
| PhraseTable.ContactMirror | script.js:396-411 | the same for the contact sections (`en` section at lines 513-528) |
| PhraseTable.FooterMirror | script.js:414-417 | the same for the footer sections (`en` section at lines 531-534) |
| PhraseTable.NavigationHeroSpanishKeysApart | script.js:304-313 | the `es` navigation and hero sections share no key; one such lemma for each of the 55 pairs of sections in each literal, `XYSpanishKeysApart` and `XYEnglishKeysApart` |
| PhraseTable.AmenitiesContactSpanishKeysApart | script.js:343-411 | the `es` amenities and contact sections share only "Free WiFi" (lines 344 and 409), the one key two sections of either literal have in common |
| PhraseTable.AboutRoomsSpanishKeysApart0 | script.js:316-340 | the first four declarations of the `es` about section share no key with the rooms section; the larger pairs of sections are proved in two halves this way |
| PhraseTable.FreeWiFiDeclaredTwice | script.js:409 | `es` declares "Free WiFi" as "WiFi Gratuito" in the amenities section and as "WiFi gratuito" in the contact section |
| PhraseTable.SpanishFreeWiFi | script.js:396-418 | the `es` map sends "Free WiFi" to "WiFi gratuito", the later declaration |
| PhraseTable.EnglishWiFiGratuito | script.js:460-535 | the `en` map sends "WiFi Gratuito" to "Free WiFi" |
| PhraseTable.LaterSectionsLackWiFiGratuito | script.js:479-535 | no `en` section after the amenities section declares "WiFi Gratuito" |
| PhraseTable.FreeWiFiLabelDrift | script.js:587-588 | a label "WiFi Gratuito" switched to English (line 461) and back to Spanish (line 409, overriding line 344) reads "WiFi gratuito", which differs from the original label |
| Slideshow.JsRemainder | script.js:262 | JavaScript `%` with a positive divisor: bounded by the divisor, Dafny's `%` for a non-negative dividend, and carrying the dividend's sign otherwise |
| Slideshow.NextIndex | script.js:262 | the next index is NaN exactly when there are no slides or the index is already NaN, and otherwise lies strictly between minus the count and the count |
| Slideshow.NextIndexInRange | script.js:261-263 | from an index in range, or from -1, the next index is in range: the successor, with a wrap from the last slide to the first |
| Slideshow.NextIndexFromBelow | script.js:262 | from -6 with three slides the next index is -2, which is not in range: `currentSlide` (lines 266-268) can leave the index below -1 |
| Slideshow.AdvanceCycles | script.js:261-263 | repeated calls visit the slides in order, and as many calls as there are slides come back to the starting slide |
| Slideshow.AdvanceStep | script.js:261-263 | one more call from slide j reaches the slide after j, wrapping after the last |
| Slideshow.MarksActivateOne | script.js:249-259 | after `showSlide(index)` exactly one item is active when `index` names a slide and an item, and none otherwise; the active one is item `index` |
| Slideshow.Slideshow.constructor | script.js:245-247 | the slideshow starts at index 0 |
| Slideshow.Slideshow.ShowSlide | script.js:249-259 | every mark is cleared, then slide `index` and dot `index` are marked when the slide exists; the call fails with a TypeError when the slide exists and the dot does not |
| Slideshow.Slideshow.NextSlide | script.js:261-264 | the index advances by JavaScript `%` over the slide count, and that slide is shown |
| Slideshow.Slideshow.CurrentSlide | script.js:266-269 | a dot's 1-based number becomes the 0-based index, and that slide is shown |
| ContactForm.IndexOf | script.js:61-62 | finds the first occurrence of a character, or reports that there is none |
| ContactForm.EmailRegexTestMatchesPattern | script.js:61-62 | the direct test accepts exactly the strings the regular expression matches: a run, '@', a run, '.', a run, where a run is one or more characters that are neither whitespace nor '@' |
| ContactForm.Validate | script.js:55-65 | a missing or empty field is reported first, whatever the address; then an address the pattern rejects; otherwise the message is sent |

## Left out

- **Browser machinery.** The CSS selector of the rewrite pass is computed from each
  record's tag and href. `closest('script')`, `closest('style')`, `closest('.flag')`
  and `span:not(.flag)` become one precomputed flag per element.
- **Elements as flat records.** Nesting is not modelled. A parent's `textContent`
  includes its children's text, and writing it removes the children. The pass
  visits each element on its own.
- **`element.href` normalisation.** The browser returns a resolved URL, and
  percent-encodes characters such as the literal 'ó' in two of the Spanish
  patterns. The model treats the href as the string the pass reads and writes.
- PageContent.SwitchBackRestoresWhatsAppAnchor assumes the fragment sits as a
  query value: '=' or nothing before it, '%', '&' or nothing after it. Otherwise
  a marker such as "whatsapp" could straddle the fragment's edge, and the
  round trip does not hold for such hrefs.
- PageContent.SwitchBackRestoresChainedAnchor makes the same assumption about
  the chained message, and covers only fragment 0 followed by "%20" and one
  other fragment. Other combinations of fragments in one href are not proved.
- **Inherited properties.** `translations[lang]` for inherited keys such as
  "constructor" or "toString" is not modelled. A lookup sees only the literal's
  own keys.
- PhraseTable.SectionsMirror is proved for any section lists that satisfy its
  hypotheses. For `SpanishSections` and `EnglishSections` (script.js:302-535)
  the hypotheses are proved one pair of sections at a time (the `KeysApart`
  lemmas) and one section at a time (the `Mirror` lemmas). The step that
  collects those facts into the lists and applies the lemma to `Translations`
  is not proved. Any single proof obligation holding a whole literal needs more
  solver resources than this project allows.
- `PhraseTable.Translations` is not connected to `Page.translations`. The page
  and its lemmas are generic over the table. `FreeWiFiLabelDrift` applies to
  any table whose maps end with the same sections.
- **Timers, alerts and form plumbing.** Not modelled:
  - the 100 ms delay before the language system starts;
  - the slideshow's automatic advance and its pause on hover;
  - the alerts;
  - `FormData`;
  - the simulated send (button text, disabling, reset).

  Validation returns which of the three outcomes occurs.
- **`localStorage`.** It is a field that startup reads and every switch writes.
  Its persistence across page loads appears only through `StartupIsStable`.
- Slideshow.Slideshow.CurrentSlide takes an integer, as the dots' `onclick`
  handlers pass. Non-integer and non-numeric arguments are not modelled. The
  slides and the dots are two distinct lists.
- **The rest of `script.js`.** Not modelled:
  - the mobile menu;
  - smooth scrolling;
  - the navbar style;
  - the scroll animations and lazy loading;
  - parallax;
  - the ripple effect;
  - the style element it injects.
