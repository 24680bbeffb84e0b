/**
 * The check the contact form's submit handler makes before it pretends to
 * send the message: all four fields filled in, then the address shaped like
 * an email address.
 */
module ContactForm {
  import opened Wrappers
  import opened JsStrings

  /**
   * The form's entries as `Object.fromEntries(new FormData(form))` gives
   * them: a field the form lacks is absent.
   */
  datatype Submission = Submission(name: Option<string>, email: Option<string>,
                                   subject: Option<string>, message: Option<string>)

  /** What the handler does: the "fill in every field" alert, the "invalid email" alert, or the simulated send. */
  datatype Outcome = MissingField | InvalidEmail | Accepted

  /** `data.field` is truthy: present and not the empty string. */
  predicate Filled(field: Option<string>) {
    field.Some? && field.value != ""
  }

  predicate AllFilled(data: Submission) {
    Filled(data.name) && Filled(data.email) && Filled(data.subject) && Filled(data.message)
  }

  /** A character of the class `[^\s@]`. */
  predicate AddressChar(c: char) {
    !IsWhitespace(c) && c != '@'
  }

  /** A match of `[^\s@]+`. */
  predicate AddressRun(s: string) {
    |s| > 0 && forall k | 0 <= k < |s| :: AddressChar(s[k])
  }

  /**
   * The language of `/^[^\s@]+@[^\s@]+\.[^\s@]+$/`: a run, '@', a run, '.',
   * a run, and nothing else.
   */
  ghost predicate EmailPattern(s: string) {
    exists at, dot | 0 < at < dot - 1 && dot < |s| - 1 ::
      s[at] == '@' && s[dot] == '.' &&
      AddressRun(s[..at]) && AddressRun(s[at + 1..dot]) && AddressRun(s[dot + 1..])
  }

  /** The index of the first `c` in `s`, if any. */
  function IndexOf(s: string, c: char): (r: Option<nat>)
    ensures r.Some? ==> r.value < |s| && s[r.value] == c
    ensures r.Some? ==> forall k | 0 <= k < r.value :: s[k] != c
    ensures r.None? ==> forall k | 0 <= k < |s| :: s[k] != c
  {
    if s == [] then None
    else if s[0] == c then Some(0)
    else match IndexOf(s[1..], c)
      case None => None
      case Some(i) => Some(i + 1)
  }

  /** A '.' with something before it and something after it. */
  predicate HasInnerDot(d: string) {
    exists k | 0 < k < |d| - 1 :: d[k] == '.'
  }

  /**
   * `emailRegex.test(email)`, decided directly: a non-empty run before the
   * first '@', and after it a run holding a '.' that is neither its first nor
   * its last character.
   */
  predicate EmailRegexTest(s: string) {
    match IndexOf(s, '@')
    case None => false
    case Some(at) => AddressRun(s[..at]) && AddressRun(s[at + 1..]) && HasInnerDot(s[at + 1..])
  }

  /** The direct test accepts exactly the strings the regular expression matches. */
  lemma EmailRegexTestMatchesPattern(s: string)
    ensures EmailRegexTest(s) <==> EmailPattern(s)
  {
    if EmailRegexTest(s) {
      TestFindsPattern(s);
    }
    if EmailPattern(s) {
      var at, dot :| 0 < at < dot - 1 && dot < |s| - 1 && s[at] == '@' && s[dot] == '.' &&
        AddressRun(s[..at]) && AddressRun(s[at + 1..dot]) && AddressRun(s[dot + 1..]);
      PatternPassesTest(s, at, dot);
    }
  }

  /** An address the direct test accepts splits at its first '@' and at an inner '.' of the rest. */
  lemma TestFindsPattern(s: string)
    requires EmailRegexTest(s)
    ensures EmailPattern(s)
  {
    var at := IndexOf(s, '@').value;
    var d := s[at + 1..];
    var k :| 0 < k < |d| - 1 && d[k] == '.';
    var dot := at + 1 + k;
    assert s[dot] == '.';
    SubRun(d, 0, k);
    SubRun(d, k + 1, |d|);
    assert s[at + 1..dot] == d[0..k];
    assert s[dot + 1..] == d[k + 1..|d|];
  }

  /** A match of the regular expression has its only '@' at `at`, and a run with an inner '.' after it. */
  lemma PatternPassesTest(s: string, at: nat, dot: nat)
    requires 0 < at < dot - 1 && dot < |s| - 1 && s[at] == '@' && s[dot] == '.'
    requires AddressRun(s[..at]) && AddressRun(s[at + 1..dot]) && AddressRun(s[dot + 1..])
    ensures EmailRegexTest(s)
  {
    assert forall k | 0 <= k < at :: s[k] == s[..at][k];
    assert IndexOf(s, '@') == Some(at);
    var d := s[at + 1..];
    assert d == s[at + 1..dot] + [s[dot]] + s[dot + 1..];
    RunsJoin(s[at + 1..dot], s[dot + 1..]);
    assert d[dot - at - 1] == '.';
  }

  /** A non-empty slice of a run is a run. */
  lemma SubRun(s: string, i: nat, j: nat)
    requires forall k | 0 <= k < |s| :: AddressChar(s[k])
    requires i < j <= |s|
    ensures AddressRun(s[i..j])
  {
    assert forall k | 0 <= k < j - i :: s[i..j][k] == s[i + k];
  }

  /** Two runs joined by a '.' make a run. */
  lemma RunsJoin(a: string, b: string)
    requires AddressRun(a) && AddressRun(b)
    ensures AddressRun(a + "." + b)
  {
    var d := a + "." + b;
    assert AddressChar('.');
    forall k | 0 <= k < |d| ensures AddressChar(d[k]) {
      if k < |a| {
        assert d[k] == a[k];
      } else if k > |a| {
        assert d[k] == b[k - |a| - 1];
      }
    }
  }

  /**
   * The submit handler's verdict: a missing or empty field is reported first,
   * whatever the address is, then an address the regular expression rejects;
   * everything else is sent.
   */
  function Validate(data: Submission): (r: Outcome)
    ensures r == MissingField <==> !AllFilled(data)
    ensures r == InvalidEmail <==> AllFilled(data) && !EmailPattern(data.email.value)
    ensures r == Accepted <==> AllFilled(data) && EmailPattern(data.email.value)
  {
    if !Filled(data.name) || !Filled(data.email) || !Filled(data.subject) || !Filled(data.message) then
      MissingField
    else
      EmailRegexTestMatchesPattern(data.email.value);
      if !EmailRegexTest(data.email.value) then InvalidEmail
      else Accepted
  }
}
