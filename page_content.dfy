/**
 * The bilingual text swap of the hostel page: the rewrite pass over the
 * page's text-bearing elements, the WhatsApp link special case, the meta tags,
 * and the language session (current language, stored preference, language
 * buttons, document language).
 *
 * The page is a flat sequence of element records. The CSS selector of the
 * rewrite pass is computed from each record's tag and href; whether an element
 * sits inside a script or style element or inside an element of class "flag"
 * is a precomputed flag.
 */
module PageContent {
  import opened Wrappers
  import opened JsStrings
  import WhatsAppLink

  /** The tags the rewrite pass selects; every other tag is `Other`. */
  datatype Tag = H1 | H2 | H3 | H4 | P | Span | A | Li | Other

  /**
   * An element of the page: its tag, its text content, its href (the empty
   * string when it has none) and whether it lies inside a script or style
   * element or inside, or is itself, an element of class "flag".
   */
  datatype Element = Element(tag: Tag, text: string, href: string, inSkippedContext: bool)

  /** A `.lang-btn` button: its `data-lang` attribute and whether it carries the class "active". */
  datatype LanguageButton = LanguageButton(dataLang: Option<string>, active: bool)

  /** The phrase maps, keyed by language code. */
  type Translations = map<string, map<string, string>>

  /**
   * The candidates of the rewrite pass: headings h1 to h4, paragraphs, spans,
   * list items, and anchors whose href includes neither "tel:" nor "mailto:",
   * except those in a script, style or "flag" context.
   */
  predicate Selected(e: Element) {
    !e.inSkippedContext &&
    match e.tag
    case A => !Includes(e.href, "tel:") && !Includes(e.href, "mailto:")
    case Other => false
    case _ => true
  }

  /** A character of the class `[\d\s\-\+\(\)]`. */
  predicate IsNumericClass(c: char) {
    IsDigit(c) || IsWhitespace(c) || c == '-' || c == '+' || c == '(' || c == ')'
  }

  /** The test `/^[\d\s\-\+\(\)]+$/`: phone numbers, counts and the like. */
  predicate IsNumericLike(t: string) {
    |t| > 0 && forall i | 0 <= i < |t| :: IsNumericClass(t[i])
  }

  /** Trimmed text the pass leaves alone: empty, or only digits, whitespace and `-+()`. */
  predicate SkipsText(t: string) {
    t == [] || IsNumericLike(t)
  }

  /** A phone number is left alone; a label that merely contains digits is still looked up. */
  lemma SkipRuleExamples()
    ensures SkipsText("+591 73064877")
    ensures !SkipsText("24h Reception")
  {
    var phone := "+591 73064877";
    assert forall i | 0 <= i < |phone| :: IsNumericClass(phone[i]);
    assert !IsNumericClass("24h Reception"[2]);
  }

  /** An anchor whose href includes "whatsapp". */
  predicate IsWhatsAppAnchor(e: Element) {
    e.tag == A && Includes(e.href, "whatsapp")
  }

  /**
   * `translations[lang] && translations[lang][text]`: an exact, case-sensitive
   * match of the trimmed text, for a language the table has; an empty
   * translation counts as none.
   */
  function Lookup(table: Translations, lang: string, text: string): Option<string> {
    if lang in table && text in table[lang] && table[lang][text] != "" then Some(table[lang][text]) else None
  }

  /**
   * The lookup finds `v` for `text` exactly when the map for `lang` has that
   * very text as a key, translated as the non-empty `v`: no case folding, no
   * partial match, and an empty translation counts as a miss.
   */
  lemma LookupIsExact(table: Translations, lang: string, text: string, v: string)
    ensures Lookup(table, lang, text) == Some(v) <==>
              lang in table && text in table[lang] && table[lang][text] == v && v != ""
  {
  }

  /** The element's text after a lookup of `text`: the translation if there is one, else the text as it was. */
  function LookedUpText(table: Translations, lang: string, e: Element, text: string): string {
    match Lookup(table, lang, text)
    case Some(translated) => translated
    case None => e.text
  }

  /**
   * `updateWhatsAppLink`: the label gets the ordinary lookup and the href the
   * fragment substitution for `lang`; an href without any fragment the pass
   * looks for keeps its value.
   */
  function UpdateWhatsAppLink(table: Translations, lang: string, e: Element, text: string): (r: Element)
    ensures r.tag == e.tag && r.inSkippedContext == e.inSkippedContext
    ensures Lookup(table, lang, text) == None ==> r.text == e.text
    ensures Lookup(table, lang, text).Some? ==> r.text == Lookup(table, lang, text).value
    ensures r.href == WhatsAppLink.UpdateHref(e.href, lang)
    ensures (forall j | 0 <= j < 4 :: !Includes(e.href, WhatsAppLink.SourceFragments(lang)[j])) ==> r.href == e.href
  {
    e.(text := LookedUpText(table, lang, e, text), href := WhatsAppLink.UpdateHref(e.href, lang))
  }

  /**
   * What one iteration of `updatePageContent` does to an element. An element
   * that is not a candidate, or whose trimmed text is empty or numeric-like, is
   * left exactly as it was. Otherwise its text becomes the translation of its
   * trimmed text when the table for `lang` has one, and stays as it was when it
   * has none (in particular for a language the table lacks). The href changes
   * only for WhatsApp anchors, and only through the fragment substitution.
   */
  function RewriteElement(table: Translations, lang: string, e: Element): (r: Element)
    ensures r.tag == e.tag && r.inSkippedContext == e.inSkippedContext
    ensures !Selected(e) || SkipsText(Trim(e.text)) ==> r == e
    ensures Selected(e) && !SkipsText(Trim(e.text)) ==>
              r.text == LookedUpText(table, lang, e, Trim(e.text))
    ensures lang !in table ==> r.text == e.text
    ensures !IsWhatsAppAnchor(e) ==> r.href == e.href
    ensures Selected(e) && !SkipsText(Trim(e.text)) && IsWhatsAppAnchor(e) ==>
              r.href == WhatsAppLink.UpdateHref(e.href, lang)
  {
    if !Selected(e) then e
    else
      var currentText := Trim(e.text);
      if SkipsText(currentText) then e
      else if IsWhatsAppAnchor(e) then UpdateWhatsAppLink(table, lang, e, currentText)
      else e.(text := LookedUpText(table, lang, e, currentText))
  }

  /** The page after a whole rewrite pass: every element rewritten, in place, in document order. */
  function RewriteAll(table: Translations, lang: string, elements: seq<Element>): (r: seq<Element>)
    ensures |r| == |elements|
    ensures forall i | 0 <= i < |r| :: r[i] == RewriteElement(table, lang, elements[i])
  {
    seq(|elements|, i requires 0 <= i < |elements| => RewriteElement(table, lang, elements[i]))
  }

  /**
   * Switching to `there` and then to `back` restores a translatable element
   * when the two phrase maps are mirrors at its text: the text returns as the
   * original trimmed text, and nothing else about the element changes.
   */
  lemma SwitchBackRestoresText(table: Translations, e: Element, there: string, back: string, v: string)
    requires Selected(e) && !IsWhatsAppAnchor(e) && !SkipsText(Trim(e.text))
    requires Lookup(table, there, Trim(e.text)) == Some(v)
    requires Trim(v) == v && !SkipsText(v)
    requires Lookup(table, back, v) == Some(Trim(e.text))
    ensures RewriteElement(table, back, RewriteElement(table, there, e)) == e.(text := Trim(e.text))
  {
    SwitchTwice(table, e, there, back, v, Trim(e.text));
  }

  /**
   * Two switches in a row on a translatable element whose text the first
   * language maps to `v` and the second maps `v` on to `w`: the element ends
   * with text `w`, and nothing else about it changes.
   */
  lemma SwitchTwice(table: Translations, e: Element, there: string, back: string, v: string, w: string)
    requires Selected(e) && !IsWhatsAppAnchor(e) && !SkipsText(Trim(e.text))
    requires Lookup(table, there, Trim(e.text)) == Some(v)
    requires Trim(v) == v && !SkipsText(v)
    requires Lookup(table, back, v) == Some(w)
    ensures RewriteElement(table, back, RewriteElement(table, there, e)) == e.(text := w)
  {
    RewriteTranslatedText(table, there, e, v);
    var mid := e.(text := v);
    assert Selected(mid) == Selected(e) && IsWhatsAppAnchor(mid) == IsWhatsAppAnchor(e);
    RewriteTranslatedText(table, back, mid, w);
  }

  /** A translatable element other than a WhatsApp anchor whose text has a translation gets exactly that text. */
  lemma RewriteTranslatedText(table: Translations, lang: string, e: Element, v: string)
    requires Selected(e) && !IsWhatsAppAnchor(e) && !SkipsText(Trim(e.text))
    requires Lookup(table, lang, Trim(e.text)) == Some(v)
    ensures RewriteElement(table, lang, e) == e.(text := v)
  {
  }

  /**
   * The same for a WhatsApp anchor: its label returns as the trimmed label,
   * and an href holding exactly one known Spanish fragment as a message
   * parameter (and no other known fragment before or after the English pass)
   * is restored exactly.
   */
  lemma SwitchBackRestoresWhatsAppAnchor(table: Translations, e: Element, v: string,
                                         a: string, b: string, i: nat)
    requires Selected(e) && IsWhatsAppAnchor(e) && !SkipsText(Trim(e.text))
    requires i < 4 && e.href == a + WhatsAppLink.SpanishFragments[i] + b && WhatsAppLink.MessageBoundaries(a, b)
    requires OnlyOccurrence(e.href, WhatsAppLink.SpanishFragments[i], |a|)
    requires OnlyOccurrence(a + WhatsAppLink.EnglishFragments[i] + b, WhatsAppLink.EnglishFragments[i], |a|)
    requires forall j | 0 <= j < 4 && j != i ::
               WhatsAppLink.LacksFragmentPair(e.href, j) &&
               WhatsAppLink.LacksFragmentPair(a + WhatsAppLink.EnglishFragments[i] + b, j)
    requires Lookup(table, "en", Trim(e.text)) == Some(v)
    requires Trim(v) == v && !SkipsText(v)
    requires Lookup(table, "es", v) == Some(Trim(e.text))
    ensures RewriteElement(table, "es", RewriteElement(table, "en", e)) == e.(text := Trim(e.text))
  {
    WhatsAppLink.FragmentRoundTrip(a, b, i, "es");
    WhatsAppLink.MessageBoundariesAreNeutral(a, b);
    WhatsAppLink.MarkersSurviveFragmentSwap(a, b, i);
    AnchorRoundTrip(table, e, v, a + WhatsAppLink.EnglishFragments[i] + b);
  }

  /**
   * The same for an anchor whose message chains fragment 0 with fragment `j`
   * ("Hola, me interesa" followed by "reservar una habitación", say): label
   * and href are both restored exactly.
   */
  lemma SwitchBackRestoresChainedAnchor(table: Translations, e: Element, v: string, a: string, b: string, j: nat)
    requires Selected(e) && IsWhatsAppAnchor(e) && !SkipsText(Trim(e.text))
    requires 1 <= j < 4 && WhatsAppLink.MessageBoundaries(a, b)
    requires e.href == WhatsAppLink.Chained(a, b, WhatsAppLink.SpanishFragments, j)
    requires WhatsAppLink.SoleChainedFragments(a, b, j)
    requires Lookup(table, "en", Trim(e.text)) == Some(v)
    requires Trim(v) == v && !SkipsText(v)
    requires Lookup(table, "es", v) == Some(Trim(e.text))
    ensures RewriteElement(table, "es", RewriteElement(table, "en", e)) == e.(text := Trim(e.text))
  {
    WhatsAppLink.ChainedFragmentsRoundTrip(a, b, j, "es");
    WhatsAppLink.MarkersSurviveChainedSwap(a, b, j);
    AnchorRoundTrip(table, e, v, WhatsAppLink.Chained(a, b, WhatsAppLink.EnglishFragments, j));
  }

  /**
   * The anchor round trip, given that the two href substitutions undo each
   * other and that the English href is still a WhatsApp link the pass selects.
   */
  lemma AnchorRoundTrip(table: Translations, e: Element, v: string, t: string)
    requires Selected(e) && IsWhatsAppAnchor(e) && !SkipsText(Trim(e.text))
    requires Lookup(table, "en", Trim(e.text)) == Some(v)
    requires Trim(v) == v && !SkipsText(v)
    requires Lookup(table, "es", v) == Some(Trim(e.text))
    requires WhatsAppLink.UpdateHref(e.href, "en") == t && WhatsAppLink.UpdateHref(t, "es") == e.href
    requires Includes(t, "whatsapp") && !Includes(t, "tel:") && !Includes(t, "mailto:")
    ensures RewriteElement(table, "es", RewriteElement(table, "en", e)) == e.(text := Trim(e.text))
  {
    RewriteTranslatedAnchor(table, "en", e, v);
    var mid := e.(text := v, href := t);
    assert Selected(mid) && IsWhatsAppAnchor(mid);
    RewriteTranslatedAnchor(table, "es", mid, Trim(e.text));
  }

  /** A translatable WhatsApp anchor whose label has a translation gets that label and the substituted href. */
  lemma RewriteTranslatedAnchor(table: Translations, lang: string, e: Element, v: string)
    requires Selected(e) && IsWhatsAppAnchor(e) && !SkipsText(Trim(e.text))
    requires Lookup(table, lang, Trim(e.text)) == Some(v)
    ensures RewriteElement(table, lang, e) == e.(text := v, href := WhatsAppLink.UpdateHref(e.href, lang))
  {
  }

  /** The title a switch to `lang` writes: the English one for `"en"`, the Spanish one for every other code. */
  function MetaTitle(lang: string): string {
    if lang == "en" then EnglishTitle else SpanishTitle
  }

  /** The description a switch to `lang` writes, chosen the same way. */
  function MetaDescription(lang: string): string {
    if lang == "en" then EnglishDescription else SpanishDescription
  }

  /**
   * The meta pair is English exactly for `"en"`: every other code, "es" or
   * one the table lacks, gets the Spanish pair.
   */
  lemma MetaTagsFollowLanguage(lang: string)
    ensures MetaTitle(lang) == EnglishTitle <==> lang == "en"
    ensures MetaDescription(lang) == EnglishDescription <==> lang == "en"
    ensures MetaTitle(lang) == SpanishTitle <==> lang != "en"
    ensures MetaDescription(lang) == SpanishDescription <==> lang != "en"
  {
    assert EnglishTitle[42] == 'L' != SpanishTitle[42];
    assert |EnglishDescription| == 143 != |SpanishDescription|;
  }

  const EnglishTitle := "Hostal Sol y Lago - Copacabana, Bolivia | Lake Titicaca View"
  const EnglishDescription := "Hostal Sol y Lago in Copacabana, Bolivia. Rooms with Lake Titicaca view, breakfast included, free WiFi. Reservations via WhatsApp +591 73064877"
  const SpanishTitle := "Hostal Sol y Lago - Copacabana, Bolivia | Vista al Lago Titicaca"
  const SpanishDescription := "Hostal Sol y Lago en Copacabana, Bolivia. Habitaciones con vista al Lago Titicaca, desayuno incluido, WiFi gratuito. Reservas por WhatsApp +591 73064877"

  /** An element the page may lack: overwritten when present, still absent otherwise. */
  function Overwrite(slot: Option<string>, value: string): Option<string> {
    if slot.Some? then Some(value) else None
  }

  /** The buttons after a switch to `lang`: exactly those whose `data-lang` is `lang` are active. */
  function MarkActive(buttons: seq<LanguageButton>, lang: string): (r: seq<LanguageButton>)
    ensures |r| == |buttons|
    ensures forall i | 0 <= i < |r| :: r[i].dataLang == buttons[i].dataLang
    ensures forall i | 0 <= i < |r| :: r[i].active <==> buttons[i].dataLang == Some(lang)
  {
    seq(|buttons|, i requires 0 <= i < |buttons| => buttons[i].(active := buttons[i].dataLang == Some(lang)))
  }

  /**
   * The language at startup: the stored preference when it is present and
   * non-empty, whatever code it holds; "es" otherwise.
   */
  function StartupLanguage(stored: Option<string>): (r: string)
    ensures stored == None || stored == Some("") ==> r == "es"
    ensures stored.Some? && stored.value != "" ==> r == stored.value
  {
    if stored.Some? && stored.value != "" then stored.value else "es"
  }

  /**
   * A reload starts in the language the page was left in: after a start in
   * `StartupLanguage(stored)` the stored preference is that language, and a
   * start from it picks it again.
   */
  lemma StartupIsStable(stored: Option<string>)
    ensures StartupLanguage(Some(StartupLanguage(stored))) == StartupLanguage(stored)
  {
  }

  /** Whether a click on a button with this `data-lang` starts a switch: a non-empty code other than the current one. */
  predicate ClickSwitches(target: Option<string>, current: string) {
    target.Some? && target.value != "" && target.value != current
  }

  /**
   * The page together with the language session: the elements the rewrite
   * pass visits, the language buttons, the `lang` attribute of the document,
   * the title and the description meta tag (absent when the page has none),
   * the current language and the stored preference (the localStorage entry
   * "preferredLanguage", absent until the first switch stores one).
   */
  class Page {
    const translations: Translations
    var elements: seq<Element>
    var buttons: seq<LanguageButton>
    var documentLang: string
    var title: Option<string>
    var description: Option<string>
    var currentLanguage: string
    var preferredLanguage: Option<string>

    /** The page as loaded, before the language system starts; the current language starts as "es". */
    constructor (translations: Translations, elements: seq<Element>, buttons: seq<LanguageButton>,
                 documentLang: string, title: Option<string>, description: Option<string>,
                 preferredLanguage: Option<string>)
      ensures this.translations == translations && this.elements == elements && this.buttons == buttons
      ensures this.documentLang == documentLang && this.title == title && this.description == description
      ensures this.preferredLanguage == preferredLanguage && currentLanguage == "es"
    {
      this.translations := translations;
      this.elements := elements;
      this.buttons := buttons;
      this.documentLang := documentLang;
      this.title := title;
      this.description := description;
      this.preferredLanguage := preferredLanguage;
      currentLanguage := "es";
    }

    /** The whole effect of a switch to `lang`, relative to the state before it. */
    twostate predicate SwitchedTo(lang: string)
      reads this
    {
      && currentLanguage == lang
      && preferredLanguage == Some(lang)
      && documentLang == lang
      && buttons == MarkActive(old(buttons), lang)
      && elements == RewriteAll(translations, lang, old(elements))
      && title == Overwrite(old(title), MetaTitle(lang))
      && description == Overwrite(old(description), MetaDescription(lang))
    }

    /** `updateMetaTags`: the hard-coded title and description for `lang`, where the page has them. */
    method UpdateMetaTags(lang: string)
      modifies this`title, this`description
      ensures title == Overwrite(old(title), MetaTitle(lang))
      ensures description == Overwrite(old(description), MetaDescription(lang))
    {
      if lang == "en" {
        if title.Some? { title := Some(EnglishTitle); }
        if description.Some? { description := Some(EnglishDescription); }
      } else {
        if title.Some? { title := Some(SpanishTitle); }
        if description.Some? { description := Some(SpanishDescription); }
      }
    }

    /**
     * The callback `updatePageContent` runs on one element: the script, style
     * and "flag" guard, the trim, the skip test, the WhatsApp special case and
     * the lookup, each ending the visit early as in the source.
     */
    method VisitElement(lang: string, element: Element) returns (updated: Element)
      ensures updated == RewriteElement(translations, lang, element)
    {
      updated := element;
      if !Selected(element) {
        return;
      }
      var currentText := Trim(element.text);
      if SkipsText(currentText) {
        return;
      }
      if IsWhatsAppAnchor(element) {
        updated := UpdateWhatsAppLink(translations, lang, element, currentText);
        return;
      }
      var translated := Lookup(translations, lang, currentText);
      if translated.Some? {
        updated := element.(text := translated.value);
      }
    }

    /** `updatePageContent`: one visit of every element in document order, then the meta tags. */
    method UpdatePageContent(lang: string)
      modifies this`elements, this`title, this`description
      ensures elements == RewriteAll(translations, lang, old(elements))
      ensures title == Overwrite(old(title), MetaTitle(lang))
      ensures description == Overwrite(old(description), MetaDescription(lang))
    {
      var page := elements;
      var i := 0;
      while i < |page|
        invariant unchanged(this)
        invariant 0 <= i <= |page| == |elements|
        invariant forall j | 0 <= j < i :: page[j] == RewriteElement(translations, lang, elements[j])
        invariant forall j | i <= j < |page| :: page[j] == elements[j]
      {
        var updated := VisitElement(lang, page[i]);
        page := page[i := updated];
        i := i + 1;
      }
      elements := page;
      UpdateMetaTags(lang);
    }

    /**
     * `switchLanguage`: the current language, the active button, the document
     * language, the rewrite pass with the meta tags, and the stored preference,
     * in that order.
     */
    method SwitchLanguage(lang: string)
      modifies this
      ensures SwitchedTo(lang)
    {
      currentLanguage := lang;
      var updated := buttons;
      var i := 0;
      while i < |updated|
        invariant 0 <= i <= |updated| == |buttons|
        invariant forall j | 0 <= j < i :: updated[j] == MarkActive(buttons, lang)[j]
        invariant forall j | i <= j < |updated| :: updated[j] == buttons[j]
      {
        var button := updated[i].(active := false);
        if button.dataLang == Some(lang) {
          button := button.(active := true);
        }
        updated := updated[i := button];
        i := i + 1;
      }
      buttons := updated;
      documentLang := lang;
      UpdatePageContent(lang);
      preferredLanguage := Some(lang);
    }

    /**
     * The click listener of a language button: a switch when its `data-lang`
     * is a non-empty code other than the current language, nothing at all
     * otherwise.
     */
    method ClickLanguageButton(target: Option<string>)
      modifies this
      ensures ClickSwitches(target, old(currentLanguage)) ==> SwitchedTo(target.value)
      ensures !ClickSwitches(target, old(currentLanguage)) ==> unchanged(this)
    {
      if target.Some? && target.value != "" && target.value != currentLanguage {
        SwitchLanguage(target.value);
      }
    }

    /**
     * `initializeLanguageSystem`: always a full switch, to the stored
     * preference or, when none is stored, to "es".
     */
    method Initialize()
      modifies this
      ensures SwitchedTo(StartupLanguage(old(preferredLanguage)))
    {
      var savedLang := if preferredLanguage.Some? && preferredLanguage.value != "" then preferredLanguage.value else "es";
      SwitchLanguage(savedLang);
    }
  }
}
