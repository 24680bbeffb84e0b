/**
 * The rewrite of a WhatsApp deep link's prewritten message: four fixed
 * percent-encoded fragments swapped one way or the other, the URL otherwise
 * treated as an opaque string.
 */
module WhatsAppLink {
  import opened JsStrings

  /** The Spanish message fragments, in the order the Spanish-to-English chain replaces them. */
  const SpanishFragments: seq<string> :=
    ["Hola%2C%20me%20interesa", "información%20sobre", "reservar%20una%20habitación", "hacer%20una%20reserva"]

  /** The English message fragments, pairwise the translations of `SpanishFragments`. */
  const EnglishFragments: seq<string> :=
    ["Hello%2C%20I%20am%20interested%20in", "information%20about", "booking%20a%20room", "making%20a%20reservation"]

  /** The fragments a pass for `lang` looks for: Spanish ones for `"en"`, English ones for any other code. */
  function SourceFragments(lang: string): seq<string> {
    if lang == "en" then SpanishFragments else EnglishFragments
  }

  /** The fragments a pass for `lang` writes. */
  function TargetFragments(lang: string): seq<string> {
    if lang == "en" then EnglishFragments else SpanishFragments
  }

  /**
   * The new href of a WhatsApp anchor after a switch to `lang`: the chain of
   * four replace-all substitutions, Spanish to English when `lang` is `"en"`,
   * English to Spanish for every other code. An href that includes none of the
   * four fragments the pass looks for comes back unchanged.
   */
  function UpdateHref(href: string, lang: string): (r: string)
    ensures (forall j | 0 <= j < 4 :: !Includes(href, SourceFragments(lang)[j])) ==> r == href
  {
    ReplaceChain(href, SourceFragments(lang), TargetFragments(lang))
  }

  /** `s` includes neither the Spanish nor the English form of fragment `j`. */
  predicate LacksFragmentPair(s: string, j: nat)
    requires j < 4
  {
    !Includes(s, SpanishFragments[j]) && !Includes(s, EnglishFragments[j])
  }

  /**
   * Round trip of one fragment pair: an href `a + S + b`, where `S` is the
   * Spanish fragment `i` occurring only at `|a|`, becomes `a + E + b` under
   * `"en"`, with `E` the English fragment `i`, and a pass for any other code
   * restores it exactly. Neither href may contain another known fragment.
   */
  lemma FragmentRoundTrip(a: string, b: string, i: nat, other: string)
    requires i < 4 && other != "en"
    requires OnlyOccurrence(a + SpanishFragments[i] + b, SpanishFragments[i], |a|)
    requires OnlyOccurrence(a + EnglishFragments[i] + b, EnglishFragments[i], |a|)
    requires forall j | 0 <= j < 4 && j != i ::
               LacksFragmentPair(a + SpanishFragments[i] + b, j) &&
               LacksFragmentPair(a + EnglishFragments[i] + b, j)
    ensures UpdateHref(a + SpanishFragments[i] + b, "en") == a + EnglishFragments[i] + b
    ensures UpdateHref(a + EnglishFragments[i] + b, other) == a + SpanishFragments[i] + b
  {
    var s := a + SpanishFragments[i] + b;
    var t := a + EnglishFragments[i] + b;
    assert s[..|a|] == a && s[|a| + |SpanishFragments[i]|..] == b;
    assert t[..|a|] == a && t[|a| + |EnglishFragments[i]|..] == b;
    assert s[..|a|] + EnglishFragments[i] + s[|a| + |SpanishFragments[i]|..] == t;
    assert t[..|a|] + SpanishFragments[i] + t[|a| + |EnglishFragments[i]|..] == s;
    forall j | 0 <= j < 4 && j != i
      ensures !Includes(s, SpanishFragments[j]) && !Includes(t, SpanishFragments[j])
      ensures !Includes(s, EnglishFragments[j]) && !Includes(t, EnglishFragments[j])
    {
      assert LacksFragmentPair(s, j) && LacksFragmentPair(t, j);
    }
    ReplaceChainSole(s, SpanishFragments, EnglishFragments, i, |a|);
    ReplaceChainSole(t, EnglishFragments, SpanishFragments, i, |a|);
  }

  /**
   * Where the known fragments sit in a WhatsApp link: the message is the
   * value of a query parameter, so what precedes a fragment ends with '='
   * (or is empty) and what follows it starts with '%' or '&' (or is empty).
   */
  predicate MessageBoundaries(a: string, b: string) {
    (a == [] || a[|a| - 1] == '=') && (b == [] || b[0] == '%' || b[0] == '&')
  }

  /**
   * A marker the rewrite pass looks for in an href ("whatsapp", "tel:",
   * "mailto:") never overlaps a fragment when the characters on either side
   * of the fragment are not in the marker and the marker has a character
   * `m[c]` the fragment lacks: swapping the fragment neither creates nor
   * removes it.
   */
  lemma MarkerSurvivesSwap(a: string, b: string, f: string, g: string, m: string, c: nat)
    requires c < |m| && m[c] !in f
    requires (a == [] || a[|a| - 1] !in m) && (b == [] || b[0] !in m)
    ensures Includes(a + f + b, m) ==> Includes(a + g + b, m)
  {
    if Includes(a + f + b, m) {
      var k := OccurrenceOfIncludes(a + f + b, m);
      NoOverlap(a, b, f, m, c, k);
      var k' := OccurrenceOutside(a, b, f, g, m, k);
      IncludesOccurrence(a + g + b, m, k');
    }
  }

  /** An occurrence of such a marker lies wholly before or wholly after the fragment. */
  lemma NoOverlap(a: string, b: string, f: string, m: string, c: nat, k: nat)
    requires c < |m| && m[c] !in f
    requires (a == [] || a[|a| - 1] !in m) && (b == [] || b[0] !in m)
    requires OccursAt(a + f + b, m, k)
    ensures k + |m| <= |a| || k >= |a| + |f|
  {
    OverlapShares(a, f, b, m, c, k);
  }

  /** A character that occurs in none of the markers "whatsapp", "tel:" and "mailto:". */
  predicate NeutralChar(c: char) {
    c !in "whatsapp" && c !in "tel:" && c !in "mailto:"
  }

  /** The characters just before and just after a fragment, where there are any, are neutral. */
  predicate NeutralEdges(a: string, b: string) {
    (a == [] || NeutralChar(a[|a| - 1])) && (b == [] || NeutralChar(b[0]))
  }

  /** The delimiters around a message parameter ('=' before, '%' or '&' after) are neutral. */
  lemma MessageBoundariesAreNeutral(a: string, b: string)
    requires MessageBoundaries(a, b)
    ensures NeutralEdges(a, b)
  {
    assert NeutralChar('=') && NeutralChar('%') && NeutralChar('&');
  }

  /** No Spanish fragment contains 'w' or ':'. */
  lemma SpanishFragmentChars(i: nat)
    requires i < 4
    ensures 'w' !in SpanishFragments[i] && ':' !in SpanishFragments[i]
  {
    if i < 2 {
      SpanishFragmentCharsFirstHalf(i);
    } else {
      SpanishFragmentCharsSecondHalf(i);
    }
  }

  lemma SpanishFragmentCharsFirstHalf(i: nat)
    requires i < 2
    ensures 'w' !in SpanishFragments[i] && ':' !in SpanishFragments[i]
  {
    if i == 0 {
      assert SpanishFragments[0] == "Hola%2C%20me%20interesa";
    } else {
      assert SpanishFragments[1] == "información%20sobre";
    }
  }

  lemma SpanishFragmentCharsSecondHalf(i: nat)
    requires 2 <= i < 4
    ensures 'w' !in SpanishFragments[i] && ':' !in SpanishFragments[i]
  {
    if i == 2 {
      assert SpanishFragments[2] == "reservar%20una%20habitación";
    } else {
      assert SpanishFragments[3] == "hacer%20una%20reserva";
    }
  }

  /** No English fragment contains 'w' or ':'. */
  lemma EnglishFragmentChars(i: nat)
    requires i < 4
    ensures 'w' !in EnglishFragments[i] && ':' !in EnglishFragments[i]
  {
    if i < 2 {
      EnglishFragmentCharsFirstHalf(i);
    } else {
      EnglishFragmentCharsSecondHalf(i);
    }
  }

  lemma EnglishFragmentCharsFirstHalf(i: nat)
    requires i < 2
    ensures 'w' !in EnglishFragments[i] && ':' !in EnglishFragments[i]
  {
    if i == 0 {
      assert EnglishFragments[0] == "Hello%2C%20I%20am%20interested%20in";
    } else {
      assert EnglishFragments[1] == "information%20about";
    }
  }

  lemma EnglishFragmentCharsSecondHalf(i: nat)
    requires 2 <= i < 4
    ensures 'w' !in EnglishFragments[i] && ':' !in EnglishFragments[i]
  {
    if i == 2 {
      assert EnglishFragments[2] == "booking%20a%20room";
    } else {
      assert EnglishFragments[3] == "making%20a%20reservation";
    }
  }

  /**
   * Swapping fragment `i` from its Spanish to its English form, between
   * neutral characters, keeps "whatsapp" in the href and keeps "tel:" and
   * "mailto:" out of it.
   */
  lemma MarkersSurviveFragmentSwap(a: string, b: string, i: nat)
    requires i < 4 && NeutralEdges(a, b)
    ensures Includes(a + SpanishFragments[i] + b, "whatsapp") ==> Includes(a + EnglishFragments[i] + b, "whatsapp")
    ensures !Includes(a + SpanishFragments[i] + b, "tel:") ==> !Includes(a + EnglishFragments[i] + b, "tel:")
    ensures !Includes(a + SpanishFragments[i] + b, "mailto:") ==> !Includes(a + EnglishFragments[i] + b, "mailto:")
  {
    SpanishFragmentChars(i);
    EnglishFragmentChars(i);
    MarkerSurvivesSwap(a, b, SpanishFragments[i], EnglishFragments[i], "whatsapp", 0);
    MarkerSurvivesSwap(a, b, EnglishFragments[i], SpanishFragments[i], "tel:", 3);
    MarkerSurvivesSwap(a, b, EnglishFragments[i], SpanishFragments[i], "mailto:", 6);
  }

  /**
   * The message `a + F0 + "%20" + Fj + b` in which fragment 0 ("Hola, me
   * interesa" / "Hello, I am interested in") is followed by fragment `j`
   * (1 to 3), which completes its sentence.
   */
  function Chained(a: string, b: string, from: seq<string>, j: nat): string
    requires |from| == 4 && 1 <= j < 4
  {
    a + from[0] + ("%20" + from[j] + b)
  }

  /**
   * Hypotheses of the chained round trip: in each of the four forms the
   * href passes through, fragments 0 and `j` occur once each, where they are
   * written, and no other known fragment occurs.
   */
  ghost predicate SoleChainedFragments(a: string, b: string, j: nat)
    requires 1 <= j < 4
  {
    var es, en := SpanishFragments, EnglishFragments;
    && OnlyOccurrence(Chained(a, b, es, j), es[0], |a|)
    && OnlyOccurrence(Chained(a, b, en, j), en[0], |a|)
    && OnlyOccurrence(a + en[0] + "%20" + es[j] + b, es[j], |a| + |en[0]| + 3)
    && OnlyOccurrence(a + es[0] + "%20" + en[j] + b, en[j], |a| + |es[0]| + 3)
    && forall m | 1 <= m < 4 && m != j ::
         && LacksFragmentPair(Chained(a, b, es, j), m) && LacksFragmentPair(Chained(a, b, en, j), m)
         && LacksFragmentPair(a + en[0] + "%20" + es[j] + b, m) && LacksFragmentPair(a + es[0] + "%20" + en[j] + b, m)
  }

  /**
   * The chain `from` to `to` turns `a + from[0] + "%20" + from[j] + b` into
   * `a + to[0] + "%20" + to[j] + b`: its first replace swaps fragment 0, and
   * its replace number `j` swaps fragment `j`.
   */
  lemma ChainSwapsPair(a: string, b: string, from: seq<string>, to: seq<string>, j: nat)
    requires |from| == |to| == 4 && 1 <= j < 4
    requires forall m | 0 <= m < 4 :: from[m] != []
    requires OnlyOccurrence(Chained(a, b, from, j), from[0], |a|)
    requires OnlyOccurrence(a + to[0] + "%20" + from[j] + b, from[j], |a| + |to[0]| + 3)
    requires forall m | 1 <= m < 4 && m != j ::
               !Includes(a + to[0] + "%20" + from[j] + b, from[m]) && !Includes(Chained(a, b, to, j), from[m])
    ensures ReplaceChain(Chained(a, b, from, j), from, to) == Chained(a, b, to, j)
  {
    var rest := "%20" + from[j] + b;
    var front := a + to[0] + "%20";
    ReplaceAllSoleMiddle(a, from[0], rest, to[0]);
    Regroup(a, to[0], from[j], b);
    Regroup(a, to[0], to[j], b);
    forall m | 0 <= m < 3 && m != j - 1
      ensures !Includes(front + from[1..][j - 1] + b, from[1..][m])
      ensures !Includes(front + to[1..][j - 1] + b, from[1..][m])
    {
      assert from[1..][m] == from[m + 1];
    }
    ReplaceChainSoleMiddle(front, b, from[1..], to[1..], j - 1);
  }

  /** Regrouping a chained message around its "%20". */
  lemma Regroup(a: string, f: string, g: string, b: string)
    ensures a + f + ("%20" + g + b) == a + f + "%20" + g + b
  {
  }

  /**
   * Round trip of a chained message: an href `a + S0 + "%20" + Sj + b`
   * becomes `a + E0 + "%20" + Ej + b` under `"en"`, and a pass for any other
   * code restores it exactly.
   */
  lemma ChainedFragmentsRoundTrip(a: string, b: string, j: nat, other: string)
    requires 1 <= j < 4 && other != "en"
    requires SoleChainedFragments(a, b, j)
    ensures UpdateHref(Chained(a, b, SpanishFragments, j), "en") == Chained(a, b, EnglishFragments, j)
    ensures UpdateHref(Chained(a, b, EnglishFragments, j), other) == Chained(a, b, SpanishFragments, j)
  {
    var es, en := SpanishFragments, EnglishFragments;
    forall m | 1 <= m < 4 && m != j
      ensures !Includes(a + en[0] + "%20" + es[j] + b, es[m]) && !Includes(Chained(a, b, en, j), es[m])
      ensures !Includes(a + es[0] + "%20" + en[j] + b, en[m]) && !Includes(Chained(a, b, es, j), en[m])
    {
      assert LacksFragmentPair(a + en[0] + "%20" + es[j] + b, m) && LacksFragmentPair(Chained(a, b, en, j), m);
      assert LacksFragmentPair(a + es[0] + "%20" + en[j] + b, m) && LacksFragmentPair(Chained(a, b, es, j), m);
    }
    ChainSwapsPair(a, b, es, en, j);
    ChainSwapsPair(a, b, en, es, j);
  }

  /**
   * Both swaps of the chained message, Spanish to English, keep "whatsapp"
   * in the href and keep "tel:" and "mailto:" out of it.
   */
  lemma MarkersSurviveChainedSwap(a: string, b: string, j: nat)
    requires 1 <= j < 4 && MessageBoundaries(a, b)
    ensures Includes(Chained(a, b, SpanishFragments, j), "whatsapp") ==>
              Includes(Chained(a, b, EnglishFragments, j), "whatsapp")
    ensures !Includes(Chained(a, b, SpanishFragments, j), "tel:") ==> !Includes(Chained(a, b, EnglishFragments, j), "tel:")
    ensures !Includes(Chained(a, b, SpanishFragments, j), "mailto:") ==>
              !Includes(Chained(a, b, EnglishFragments, j), "mailto:")
  {
    var es, en := SpanishFragments, EnglishFragments;
    var rest := "%20" + es[j] + b;
    var front := a + en[0] + "%20";
    MessageBoundariesAreNeutral(a, b);
    assert NeutralEdges(a, rest) by {
      assert rest[0] == '%' && NeutralChar('%');
    }
    MarkersSurviveFragmentSwap(a, rest, 0);
    assert NeutralEdges(front, b) by {
      assert front[|front| - 1] == '0' && NeutralChar('0');
    }
    MarkersSurviveFragmentSwap(front, b, j);
    Regroup(a, en[0], es[j], b);
    Regroup(a, en[0], en[j], b);
  }
}
