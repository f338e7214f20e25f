/**
 * The registration page's three-tab wizard (`static/register.js`): the
 * index of the visible tab, the back/next/submit buttons, and the per-tab
 * validators, which collect one message per failed rule in a fixed order.
 * The page itself (alert rendering, CSS classes beyond the button states,
 * the file reader and the upload request) is not modelled.
 */
module RegisterForm {
  import opened Wrappers
  import opened Text

  // ---------------------------------------------------------------- JavaScript strings

  /** `\s` of a JavaScript regular expression, and what `Number()` trims: white space and line terminators. */
  predicate JsSpace(c: char) {
    || c == '\t' || c == '\n' || c == '\U{B}' || c == '\U{C}' || c == '\r' || c == ' '
    || c == '\U{A0}' || c == '\U{1680}' || '\U{2000}' <= c <= '\U{200A}' || c == '\U{2028}'
    || c == '\U{2029}' || c == '\U{202F}' || c == '\U{205F}' || c == '\U{3000}' || c == '\U{FEFF}'
  }

  /** `s.length`: UTF-16 code units, two for a character outside the Basic Multilingual Plane. */
  function JsLength(s: string): (n: nat)
    ensures |s| <= n <= 2 * |s|
  {
    if s == [] then 0
    else JsLength(s[..|s| - 1]) + (if s[|s| - 1] as int > 0xFFFF then 2 else 1)
  }

  /** Text made only of Basic Multilingual Plane characters has one unit per character. */
  lemma {:induction false} JsLengthBmp(s: string)
    requires forall k :: 0 <= k < |s| ==> s[k] as int <= 0xFFFF
    ensures JsLength(s) == |s|
  {
    if s != [] {
      JsLengthBmp(s[..|s| - 1]);
    }
  }

  /** `s.split(' ').length < 2`: there is no space at all (`"John "` is two words). */
  predicate OneWord(s: string) {
    |Split(s, ' ')| < 2
  }

  lemma OneWordIffNoSpace(s: string)
    ensures OneWord(s) <==> ' ' !in s
  {
    SplitHasTwoPieces(s, ' ');
  }

  /**
   * `/\S+@\S+\.\S+/.test(s)`: somewhere in `s` a non-space character, `@`,
   * at least one non-space character, `.`, and a non-space character, with
   * no white space between the `@` and the `.`.
   */
  predicate EmailShape(s: string) {
    exists at, dot :: 1 <= at && at + 2 <= dot && dot + 1 < |s| && EmailAt(s, at, dot)
  }

  predicate EmailAt(s: string, at: nat, dot: nat)
    requires 1 <= at && at + 2 <= dot && dot + 1 < |s|
  {
    && s[at] == '@' && s[dot] == '.' && !JsSpace(s[at - 1]) && !JsSpace(s[dot + 1])
    && forall k :: at < k < dot ==> !JsSpace(s[k])
  }

  /** The smallest address the pattern accepts. */
  lemma EmailShapeOf(user: char, host: char, tld: char)
    requires !JsSpace(user) && !JsSpace(host) && !JsSpace(tld) && host != '@'
    ensures EmailShape([user, '@', host, '.', tld])
  {
    var s := [user, '@', host, '.', tld];
    assert EmailAt(s, 1, 3);
  }

  /** Without an `@` nothing matches. */
  lemma EmailNeedsAt(s: string)
    requires '@' !in s
    ensures !EmailShape(s)
  {
  }

  /** Without a `.` nothing matches. */
  lemma EmailNeedsDot(s: string)
    requires '.' !in s
    ensures !EmailShape(s)
  {
  }

  /** A space between the `@` and the only `.` after it breaks the match. */
  lemma EmailSpaceBeforeDot(user: char, host: string, rest: string)
    requires '.' !in host && '@' !in host && '@' !in rest && '.' !in rest
    ensures !EmailShape([user, '@'] + host + " ." + rest)
  {
    var s := [user, '@'] + host + " ." + rest;
    assert forall k :: 2 <= k < 2 + |host| ==> s[k] == host[k - 2];
    assert forall k :: 4 + |host| <= k < |s| ==> s[k] == rest[k - 4 - |host|];
    assert s[2 + |host|] == ' ' && s[3 + |host|] == '.';
    forall at: nat, dot: nat | 1 <= at && at + 2 <= dot && dot + 1 < |s|
      ensures !EmailAt(s, at, dot)
    {
      if s[at] == '@' && s[dot] == '.' {
        assert at == 1;
        assert dot == 3 + |host|;
        assert at < 2 + |host| < dot && JsSpace(s[2 + |host|]);
      }
    }
  }

  /** `s.trim()` as `Number()` applies it. */
  function JsTrim(s: string): (r: string)
    ensures |r| <= |s|
    ensures r != [] ==> !JsSpace(r[0]) && !JsSpace(r[|r| - 1])
    decreases |s|
  {
    if s != [] && JsSpace(s[0]) then JsTrim(s[1..])
    else if s != [] && JsSpace(s[|s| - 1]) then JsTrim(s[..|s| - 1])
    else s
  }

  /** A JavaScript number as far as the comparison with 6 needs it. */
  datatype JsNumber = NaN | PositiveInfinity | NegativeInfinity | Finite(value: real)

  function Pow10(n: nat): (r: nat)
    ensures r >= 1
  {
    if n == 0 then 1 else 10 * Pow10(n - 1)
  }

  /** A digit string is below the next power of ten. */
  lemma {:induction false} DigitsBelowPow10(s: string)
    requires AllDigits(s)
    ensures DigitsValue(s) < Pow10(|s|)
  {
    if s != [] {
      DigitsBelowPow10(s[..|s| - 1]);
    }
  }

  /** An unsigned decimal literal: digits, optionally a `.` and more digits, with at least one digit in all. */
  function UnsignedDecimal(body: string): (r: Option<real>)
    ensures r.Some? ==> r.value >= 0.0
  {
    match IndexOf(body, '.')
    case None =>
      if body != [] && AllDigits(body) then Some(DigitsValue(body) as real) else None
    case Some(i) =>
      var whole := body[..i];
      var fraction := body[i + 1..];
      if AllDigits(whole) && AllDigits(fraction) && (whole != [] || fraction != []) then
        Some(DigitsValue(whole) as real + DigitsValue(fraction) as real / Pow10(|fraction|) as real)
      else None
  }

  /**
   * `Number(s)`, the conversion `val() < 6` applies to the text: trimmed
   * empty text is 0, a signed decimal or `Infinity` is read, anything else
   * is `NaN`.
   */
  function ToNumber(s: string): JsNumber {
    var t := JsTrim(s);
    if t == [] then Finite(0.0)
    else
      var negative := t[0] == '-';
      var body := if t[0] == '-' || t[0] == '+' then t[1..] else t;
      if body == "Infinity" then (if negative then NegativeInfinity else PositiveInfinity)
      else match UnsignedDecimal(body)
        case None => NaN
        case Some(v) => Finite(if negative then -v else v)
  }

  /** `x < 6` for a JavaScript number: false for `NaN`. */
  predicate BelowSix(n: JsNumber) {
    match n
    case NaN => false
    case PositiveInfinity => false
    case NegativeInfinity => true
    case Finite(v) => v < 6.0
  }

  /** The account-number rule: its value, read as a number, is below 6. */
  predicate AccountFlagged(account: string) {
    BelowSix(ToNumber(account))
  }

  /** A digit string is flagged exactly when its value is below 6, whatever its length. */
  lemma AccountDigits(d: string)
    requires d != [] && AllDigits(d)
    ensures AccountFlagged(d) <==> DigitsValue(d) < 6
  {
    assert JsTrim(d) == d by {
      assert !JsSpace(d[0]) && !JsSpace(d[|d| - 1]);
    }
    assert d != "Infinity" by {
      assert IsDigit(d[0]);
    }
    assert '.' !in d by {
      assert forall k :: 0 <= k < |d| ==> IsDigit(d[k]);
    }
  }

  /** Not a length check: the one-digit `7` passes, the five-digit `00005` is flagged. */
  lemma AccountNotLength()
    ensures !AccountFlagged("7")
    ensures AccountFlagged("00005")
  {
    AccountDigits("7");
    assert DigitsValue("7") == 7;
    AccountDigits("00005");
    assert "00005"[..4] == "0000" && "0000"[..3] == "000" && "000"[..2] == "00" && "00"[..1] == "0";
    assert DigitsValue("00005") == 5;
  }

  /** Text that is not a number compares false, so letters pass; empty text is 0 and is flagged. */
  lemma AccountNaNPasses()
    ensures !AccountFlagged("abc")
    ensures AccountFlagged("")
  {
    assert JsTrim("abc") == "abc";
    assert IndexOf("abc", '.') == None;
    assert !IsDigit('a');
  }

  // ---------------------------------------------------------------- validators

  /** The values of the form's inputs. */
  datatype Fields = Fields(
    name: string, birthday: string, email: string, phone: string,
    addressStreet: string, addressCity: string, addressState: string, addressZip: string,
    ssn: string, govtId: string,
    accountNumber: string, routingNumber: string)

  /** One check of a validator: whether it failed, and the message it pushes when it does. */
  datatype Rule = Rule(failed: bool, message: string)

  /** The messages of the failed rules, in rule order. */
  function Failing(rules: seq<Rule>): (r: seq<string>)
    ensures |r| <= |rules|
    ensures r == [] <==> forall k :: 0 <= k < |rules| ==> !rules[k].failed
  {
    if rules == [] then []
    else
      var last := rules[|rules| - 1];
      Failing(rules[..|rules| - 1]) + (if last.failed then [last.message] else [])
  }

  /** A message is pushed exactly when some rule with that message failed. */
  lemma {:induction false} FailingMessages(rules: seq<Rule>, m: string)
    ensures m in Failing(rules) <==> exists k :: 0 <= k < |rules| && rules[k].failed && rules[k].message == m
  {
    if rules != [] {
      var init := rules[..|rules| - 1];
      FailingMessages(init, m);
      assert forall k :: 0 <= k < |init| ==> init[k] == rules[k];
    }
  }

  /** The messages the validators push. */
  const NameMessage: string := "Name must be at least 2 words."
  const BirthdayMessage: string := "Invalid date of birth."
  const EmailMessage: string := "Invalid email address."
  const PhoneMessage: string := "Phone number must be at least 10 digits."
  const StreetMessage: string := "Invalid street address."
  const CityMessage: string := "Invalid address city."
  const StateMessage: string := "Address state should be at least 2 letters."
  const ZipMessage: string := "ZIP code should be at least 5 letters."
  const SsnMessage: string := "SSN must be at least 4 digits."
  const GovtIdMessage: string := "Photo ID image required."
  const AccountMessage: string := "Account number must be at least 6 digits."
  const RoutingMessage: string := "Routing number must be 9 digits."

  /** The rules of `tab0Validations`, in the order it tests them. */
  function Tab0Rules(f: Fields): (r: seq<Rule>)
    ensures |r| == 8
  {
    [ Rule(OneWord(f.name), NameMessage),
      Rule(JsLength(f.birthday) < 10, BirthdayMessage),
      Rule(!EmailShape(f.email), EmailMessage),
      Rule(JsLength(f.phone) < 10, PhoneMessage),
      Rule(OneWord(f.addressStreet), StreetMessage),
      Rule(JsLength(f.addressCity) < 2, CityMessage),
      Rule(JsLength(f.addressState) < 2, StateMessage),
      Rule(JsLength(f.addressZip) < 5, ZipMessage) ]
  }

  /** The rules of `tab1Validations`. */
  function Tab1Rules(f: Fields): (r: seq<Rule>)
    ensures |r| == 2
  {
    [ Rule(JsLength(f.ssn) < 4, SsnMessage),
      Rule(JsLength(f.govtId) < 4, GovtIdMessage) ]
  }

  /** The rules of `tab2Validations`: the account number compared as a number, the routing number by length. */
  function Tab2Rules(f: Fields): (r: seq<Rule>)
    ensures |r| == 2
  {
    [ Rule(AccountFlagged(f.accountNumber), AccountMessage),
      Rule(JsLength(f.routingNumber) != 9, RoutingMessage) ]
  }

  /** `checkValidationErrors`: the rules of the visible tab. */
  function TabRules(tab: int, f: Fields): seq<Rule>
    requires 0 <= tab <= 2
  {
    if tab == 0 then Tab0Rules(f) else if tab == 1 then Tab1Rules(f) else Tab2Rules(f)
  }

  /** Appending one rule's message when it fails extends the failing list by that rule. */
  lemma FailingSnoc(rules: seq<Rule>, k: nat)
    requires k < |rules|
    ensures Failing(rules[..k + 1]) == Failing(rules[..k]) + (if rules[k].failed then [rules[k].message] else [])
  {
    assert rules[..k + 1][..k] == rules[..k];
  }

  /** `if (failed) { errors.push(message); }` */
  method Push(errors: seq<string>, failed: bool, message: string) returns (r: seq<string>)
    ensures r == errors + (if failed then [message] else [])
  {
    r := errors;
    if failed {
      r := r + [message];
    }
  }

  /** `tab0Validations`: each failed rule pushes its message. */
  method Tab0Validations(f: Fields) returns (errors: seq<string>)
    ensures errors == Failing(Tab0Rules(f))
  {
    ghost var rules := Tab0Rules(f);
    errors := [];
    assert rules[..0] == [];
    errors := Push(errors, OneWord(f.name), NameMessage);
    FailingSnoc(rules, 0);
    errors := Push(errors, JsLength(f.birthday) < 10, BirthdayMessage);
    FailingSnoc(rules, 1);
    errors := Push(errors, !EmailShape(f.email), EmailMessage);
    FailingSnoc(rules, 2);
    errors := Push(errors, JsLength(f.phone) < 10, PhoneMessage);
    FailingSnoc(rules, 3);
    errors := Push(errors, OneWord(f.addressStreet), StreetMessage);
    FailingSnoc(rules, 4);
    errors := Push(errors, JsLength(f.addressCity) < 2, CityMessage);
    FailingSnoc(rules, 5);
    errors := Push(errors, JsLength(f.addressState) < 2, StateMessage);
    FailingSnoc(rules, 6);
    errors := Push(errors, JsLength(f.addressZip) < 5, ZipMessage);
    FailingSnoc(rules, 7);
    assert rules[..8] == rules;
  }

  /** `tab1Validations`. */
  method Tab1Validations(f: Fields) returns (errors: seq<string>)
    ensures errors == Failing(Tab1Rules(f))
  {
    ghost var rules := Tab1Rules(f);
    errors := [];
    assert rules[..0] == [];
    errors := Push(errors, JsLength(f.ssn) < 4, SsnMessage);
    FailingSnoc(rules, 0);
    errors := Push(errors, JsLength(f.govtId) < 4, GovtIdMessage);
    FailingSnoc(rules, 1);
    assert rules[..2] == rules;
  }

  /** `tab2Validations`. */
  method Tab2Validations(f: Fields) returns (errors: seq<string>)
    ensures errors == Failing(Tab2Rules(f))
  {
    ghost var rules := Tab2Rules(f);
    errors := [];
    assert rules[..0] == [];
    errors := Push(errors, AccountFlagged(f.accountNumber), AccountMessage);
    FailingSnoc(rules, 0);
    errors := Push(errors, JsLength(f.routingNumber) != 9, RoutingMessage);
    FailingSnoc(rules, 1);
    assert rules[..2] == rules;
  }

  /** A name is accepted as soon as it holds a space, even a trailing one. */
  lemma NameNeedsOnlyASpace(f: Fields)
    ensures Tab0Rules(f)[0].failed <==> ' ' !in f.name
  {
    OneWordIffNoSpace(f.name);
  }

  /** Tab 2 passes exactly when the account number does not read as a number below 6 and the routing number has 9 units. */
  lemma Tab2Passes(f: Fields)
    ensures Failing(Tab2Rules(f)) == [] <==> !AccountFlagged(f.accountNumber) && JsLength(f.routingNumber) == 9
  {
  }

  /** `while` over the active tab's inputs: all of them are non-empty. */
  method AllFilled(inputs: seq<string>) returns (filled: bool)
    ensures filled <==> forall k :: 0 <= k < |inputs| ==> inputs[k] != ""
  {
    filled := true;
    var i := 0;
    while i < |inputs|
      invariant 0 <= i <= |inputs|
      invariant filled <==> forall k :: 0 <= k < i ==> inputs[k] != ""
    {
      if inputs[i] == "" {
        filled := false;
      }
      i := i + 1;
    }
  }

  // ---------------------------------------------------------------- the wizard

  /** The tab `next` moves to when the visible tab has no errors. */
  function NextTab(tab: int): (r: int)
    requires 0 <= tab <= 2
    ensures 0 <= r <= 2 && (tab < 2 ==> r == tab + 1) && (tab == 2 ==> r == 2)
  {
    if tab < 2 then tab + 1 else tab
  }

  /** The tab `back` moves to. */
  function BackTab(tab: int): (r: int)
    requires 0 <= tab <= 2
    ensures 0 <= r <= 2 && (tab > 0 ==> r == tab - 1) && (tab == 0 ==> r == 0)
  {
    if tab > 0 then tab - 1 else tab
  }

  /** From tab 0 or 1, `next` then `back` returns to the start. */
  lemma BackUndoesNext(tab: int)
    requires 0 <= tab < 2
    ensures BackTab(NextTab(tab)) == tab
  {
  }

  /**
   * The page state the handlers change: the visible tab, the `disabled`
   * attributes of the back and next buttons, and whether the submit button
   * is shown (and the next button marked `inactive` with it).
   */
  class Wizard {
    var activeTab: int
    var backDisabled: bool
    var nextDisabled: bool
    var nextInactive: bool
    var submitShown: bool

    /** The tab is one of the three, and submit replaces next exactly on the last one. */
    predicate Valid()
      reads this
    {
      0 <= activeTab <= 2 && (submitShown <==> activeTab == 2) && (nextInactive <==> activeTab == 2)
    }

    /** `let activeTab = 0`; the buttons' initial `disabled` attributes come from the page. */
    constructor(backDisabled: bool, nextDisabled: bool)
      ensures Valid() && activeTab == 0
      ensures this.backDisabled == backDisabled && this.nextDisabled == nextDisabled
    {
      activeTab := 0;
      this.backDisabled := backDisabled;
      this.nextDisabled := nextDisabled;
      nextInactive := false;
      submitShown := false;
    }

    /** `checkValidationErrors`: the validator of the visible tab. */
    method CheckValidationErrors(f: Fields) returns (errors: seq<string>)
      requires Valid()
      ensures errors == Failing(TabRules(activeTab, f))
    {
      if activeTab == 0 {
        errors := Tab0Validations(f);
      } else if activeTab == 1 {
        errors := Tab1Validations(f);
      } else {
        errors := Tab2Validations(f);
      }
    }

    /** The back button: at tab 0 it only disables itself; otherwise it steps back, hiding submit when leaving tab 2. */
    method Back()
      requires Valid()
      modifies this
      ensures Valid()
      ensures activeTab == BackTab(old(activeTab))
      ensures backDisabled == (old(activeTab) == 0)
      ensures nextDisabled == (if old(activeTab) == 2 then false else old(nextDisabled))
    {
      if activeTab == 0 {
        backDisabled := true;
      } else {
        backDisabled := false;
        if activeTab == 2 {
          nextInactive := false;
          nextDisabled := false;
          submitShown := false;
        }
        activeTab := activeTab - 1;
      }
    }

    /**
     * The next button: with errors on the visible tab nothing changes;
     * otherwise back is enabled, next disabled, and the tab steps forward,
     * showing submit on reaching tab 2.
     */
    method Next(f: Fields) returns (errors: seq<string>)
      requires Valid()
      modifies this
      ensures Valid()
      ensures errors == Failing(TabRules(old(activeTab), f))
      ensures errors != [] ==> activeTab == old(activeTab) && backDisabled == old(backDisabled)
                               && nextDisabled == old(nextDisabled)
      ensures errors == [] ==> activeTab == NextTab(old(activeTab)) && !backDisabled && nextDisabled
    {
      errors := CheckValidationErrors(f);
      if |errors| > 0 {
        return;
      }
      backDisabled := false;
      nextDisabled := true;
      if activeTab < 2 {
        activeTab := activeTab + 1;
        if activeTab == 2 {
          nextInactive := true;
          nextDisabled := true;
          submitShown := true;
        }
      }
    }

    /** Form submission: the request goes out only when the visible tab has no errors; the page state is untouched. */
    method Submit(f: Fields) returns (sent: bool, errors: seq<string>)
      requires Valid()
      ensures errors == Failing(TabRules(activeTab, f))
      ensures sent <==> forall k :: 0 <= k < |TabRules(activeTab, f)| ==> !TabRules(activeTab, f)[k].failed
    {
      errors := CheckValidationErrors(f);
      sent := |errors| == 0;
    }

    /** Any key, click or change in the form: next is enabled exactly when every input of the visible tab is filled. */
    method InputsChanged(inputs: seq<string>)
      requires Valid()
      modifies this
      ensures Valid()
      ensures nextDisabled <==> exists k :: 0 <= k < |inputs| && inputs[k] == ""
      ensures activeTab == old(activeTab) && backDisabled == old(backDisabled)
      ensures submitShown == old(submitShown) && nextInactive == old(nextInactive)
    {
      var filled := AllFilled(inputs);
      nextDisabled := !filled;
    }

    /**
     * A click on the back button when it sits inside the form: its own
     * handler runs, then the click bubbles to the form's handler, which
     * looks at the inputs of the tab that is visible by then.
     */
    method ClickBack(inputs: seq<string>)
      requires Valid()
      modifies this
      ensures Valid()
      ensures activeTab == BackTab(old(activeTab))
      ensures backDisabled == (old(activeTab) == 0)
      ensures nextDisabled <==> exists k :: 0 <= k < |inputs| && inputs[k] == ""
    {
      Back();
      InputsChanged(inputs);
    }

    /**
     * A click on the next button when it sits inside the form: the step of
     * `Next`, then the form's handler, whose verdict on the now visible
     * tab's inputs overrides the `disabled` attribute `Next` just set.
     */
    method ClickNext(f: Fields, inputs: seq<string>) returns (errors: seq<string>)
      requires Valid()
      modifies this
      ensures Valid()
      ensures errors == Failing(TabRules(old(activeTab), f))
      ensures errors != [] ==> activeTab == old(activeTab) && backDisabled == old(backDisabled)
      ensures errors == [] ==> activeTab == NextTab(old(activeTab)) && !backDisabled
      ensures nextDisabled <==> exists k :: 0 <= k < |inputs| && inputs[k] == ""
    {
      errors := Next(f);
      InputsChanged(inputs);
    }
  }
}
