/** The one-time-passcode branch of `scrape_freedom_mobile` (step 3): choosing the SMS
    channel, the input that takes the phone number, the "Next" button, the input that takes
    the code and the button that submits it. The page is given as the element lists the
    driver would return; typing, clicking and waiting are the driver's business. */
module Otp {
  import opened Wrappers
  import opened Text

  /** An `<input>` element: its `id` and `type` attributes (`None` when absent) and
      whether `is_displayed()` holds. */
  datatype InputField = InputField(id: Option<string>, kind: Option<string>, displayed: bool)

  /** A `<button>` element: the text its `text()` node carries, whether it is displayed
      and enabled, whether a native `click()` goes through (it raises when the element is
      not interactable) and whether a script click does. */
  datatype Button = Button(text: string, displayed: bool, enabled: bool, clicks: bool, scriptClicks: bool)

  /** How the "Next" button that sends the SMS was pressed, by position among the
      buttons whose text contains "Next". */
  datatype NextClick = Native(index: nat) | Scripted(index: nat) | NotClicked

  /** How the code was submitted: a click on the button found for `SubmitLabels[labelIndex]`,
      at `index` among the page's buttons, or the Enter key in the code input. */
  datatype Submission = ClickedButton(labelIndex: nat, index: nat) | PressedEnter

  /** `get_attribute(...) or ""`. */
  function AttrOr(a: Option<string>): string {
    if a.Some? then a.value else ""
  }

  /** The login form's own inputs, never reused for the verification step. */
  const CredentialIds: set<string> := {"msisdnInput", "pinInput", "usernameInput", "passwordInput"}

  /** Input types accepted for re-entering the phone number (step 3b). */
  const PhoneEntryKinds: set<string> := {"tel", "text", "number"}

  /** Input types accepted for the verification code (step 3e). */
  const CodeKinds: set<string> := {"text", "tel", "number", "password"}

  /** Button labels tried, in this order, to submit the code (step 3f). */
  const SubmitLabels: seq<string> := ["Verify", "Submit", "Confirm", "Next"]

  // ---------------------------------------------------------------------------
  // 3a: delivery channel

  /** An option value names the phone's SMS channel when it ends in the phone's last two
      characters and is not an e-mail address. */
  predicate ChannelMatches(value: string, phone: string) {
    EndsWith(value, LastChars(phone, 2)) && '@' !in value
  }

  /** `k` is the first option, in list order, that `ChannelMatches`; `None` when none does. */
  predicate IsChannelChoice(options: seq<Option<string>>, phone: string, k: Option<nat>) {
    && (k.Some? ==> k.value < |options| && ChannelMatches(AttrOr(options[k.value]), phone))
    && forall j :: 0 <= j < |options| && (k.None? || j < k.value) ==> !ChannelMatches(AttrOr(options[j]), phone)
  }

  /** The loop over `select.options` that selects the first matching value and stops. */
  method SelectChannel(options: seq<Option<string>>, phone: string) returns (k: Option<nat>)
    ensures IsChannelChoice(options, phone, k)
  {
    var suffix := LastChars(phone, 2);
    k := None;
    var i := 0;
    while i < |options|
      invariant 0 <= i <= |options|
      invariant forall j :: 0 <= j < i ==> !ChannelMatches(AttrOr(options[j]), phone)
    {
      var value := AttrOr(options[i]);
      if EndsWith(value, suffix) && '@' !in value {
        k := Some(i);
        break;
      }
      i := i + 1;
    }
  }

  /** For a stored 10-digit number the rule compares the last two digits, so an option
      that ends in them and is not an e-mail address is taken unless an earlier one is. */
  lemma ChannelOfTenDigitPhone(options: seq<Option<string>>, phone: string, k: Option<nat>, j: nat)
    requires |phone| == 10 && IsChannelChoice(options, phone, k)
    requires j < |options| && EndsWith(AttrOr(options[j]), phone[8..]) && '@' !in AttrOr(options[j])
    ensures k.Some? && k.value <= j
  {
    assert LastChars(phone, 2) == phone[8..];
    assert ChannelMatches(AttrOr(options[j]), phone);
  }

  // ---------------------------------------------------------------------------
  // 3b and 3e: inputs

  /** A displayed input that is not a login field and whose type is one of `kinds`. */
  predicate Eligible(f: InputField, kinds: set<string>) {
    f.displayed && AttrOr(f.id) !in CredentialIds && AttrOr(f.kind) in kinds
  }

  predicate IsInputChoice(inputs: seq<InputField>, kinds: set<string>, k: Option<nat>) {
    && (k.Some? ==> k.value < |inputs| && Eligible(inputs[k.value], kinds))
    && forall j :: 0 <= j < |inputs| && (k.None? || j < k.value) ==> !Eligible(inputs[j], kinds)
  }

  /** The loop over the page's inputs that skips hidden ones and login fields and stops at
      the first whose type is allowed. Step 3b first keeps only the displayed inputs and
      then loops; since an eligible input is displayed, it stops at the same element. */
  method FindInput(inputs: seq<InputField>, kinds: set<string>) returns (k: Option<nat>)
    ensures IsInputChoice(inputs, kinds, k)
  {
    k := None;
    var i := 0;
    while i < |inputs|
      invariant 0 <= i <= |inputs|
      invariant forall j :: 0 <= j < i ==> !Eligible(inputs[j], kinds)
    {
      var f := inputs[i];
      if f.displayed {
        var id, kind := AttrOr(f.id), AttrOr(f.kind);
        if id !in CredentialIds && kind in kinds {
          k := Some(i);
          break;
        }
      }
      i := i + 1;
    }
  }

  /** An input good enough for the phone number is good enough for the code, so when step
      3b found one on the page, step 3e on the same page finds one no later. */
  lemma CodeInputNoLaterThanPhoneInput(inputs: seq<InputField>, p: Option<nat>, c: Option<nat>)
    requires IsInputChoice(inputs, PhoneEntryKinds, p) && IsInputChoice(inputs, CodeKinds, c)
    requires p.Some?
    ensures c.Some? && c.value <= p.value
  {
    assert Eligible(inputs[p.value], CodeKinds);
  }

  // ---------------------------------------------------------------------------
  // 3c: the "Next" button

  /** The driver's `//button[contains(text(), t)]`: the buttons whose text contains
      `t`, in document order. */
  function WithText(buttons: seq<Button>, t: string): (r: seq<Button>)
    ensures |r| <= |buttons|
    ensures forall b :: b in r ==> b in buttons && Contains(b.text, t)
    ensures forall j :: 0 <= j < |buttons| && Contains(buttons[j].text, t) ==> buttons[j] in r
  {
    if buttons == [] then []
    else
      var rest := WithText(buttons[1..], t);
      assert forall j :: 1 <= j < |buttons| ==> buttons[j] == buttons[1..][j - 1];
      (if Contains(buttons[0].text, t) then [buttons[0]] else []) + rest
  }

  /** The query keeps document order: the matches in a page made of two parts are the
      matches in the first part followed by those in the second. */
  lemma {:induction false} WithTextAppend(a: seq<Button>, b: seq<Button>, t: string)
    ensures WithText(a + b, t) == WithText(a, t) + WithText(b, t)
  {
    if a == [] {
      assert a + b == b;
    } else {
      assert (a + b)[1..] == a[1..] + b;
      WithTextAppend(a[1..], b, t);
    }
  }

  /** A single button is returned exactly when its text contains `t`. */
  lemma WithTextOne(b: Button, t: string)
    ensures WithText([b], t) == if Contains(b.text, t) then [b] else []
  {
    assert [b][1..] == [];
  }

  predicate NativeClickable(b: Button) {
    b.displayed && b.enabled && b.clicks
  }

  predicate ScriptClickable(b: Button) {
    b.displayed && b.scriptClicks
  }

  /** `c` is how the first pass and its fallback end on `buttons`: a native click on the
      first button that takes one; when none does, a script click on the first displayed
      button that takes one; otherwise no click. */
  predicate IsNextClick(buttons: seq<Button>, c: NextClick) {
    && (c.Native? ==>
          && c.index < |buttons| && NativeClickable(buttons[c.index])
          && forall j :: 0 <= j < c.index ==> !NativeClickable(buttons[j]))
    && (!c.Native? ==> forall j :: 0 <= j < |buttons| ==> !NativeClickable(buttons[j]))
    && (c.Scripted? ==>
          && c.index < |buttons| && ScriptClickable(buttons[c.index])
          && forall j :: 0 <= j < c.index ==> !ScriptClickable(buttons[j]))
    && (c.NotClicked? ==> forall j :: 0 <= j < |buttons| ==> !ScriptClickable(buttons[j]))
  }

  /** First try a native click on each displayed, enabled button in turn; only when none
      went through, a script click on each displayed one in turn. */
  method ClickNext(buttons: seq<Button>) returns (c: NextClick)
    ensures IsNextClick(buttons, c)
  {
    var clicked := false;
    c := NotClicked;
    var i := 0;
    while i < |buttons|
      invariant 0 <= i <= |buttons|
      invariant !clicked && c == NotClicked
      invariant forall j :: 0 <= j < i ==> !NativeClickable(buttons[j])
    {
      var b := buttons[i];
      if b.displayed && b.enabled {
        if b.clicks {
          c := Native(i);
          clicked := true;
          break;
        }
      }
      i := i + 1;
    }
    if !clicked {
      i := 0;
      while i < |buttons|
        invariant 0 <= i <= |buttons|
        invariant !clicked && c == NotClicked
        invariant forall j :: 0 <= j < i ==> !ScriptClickable(buttons[j])
      {
        var b := buttons[i];
        if b.displayed {
          if b.scriptClicks {
            c := Scripted(i);
            clicked := true;
            break;
          }
        }
        i := i + 1;
      }
    }
  }

  /** When the first button labelled `t` on the page takes a native click, that is the
      click made, whatever follows it. */
  lemma FirstLabelledButtonIsClicked(before: seq<Button>, b: Button, after: seq<Button>, t: string, c: NextClick)
    requires forall x :: x in before ==> !Contains(x.text, t)
    requires Contains(b.text, t) && NativeClickable(b)
    requires IsNextClick(WithText(before + [b] + after, t), c)
    ensures c == Native(0)
  {
    WithTextAppend(before + [b], after, t);
    WithTextAppend(before, [b], t);
    WithTextOne(b, t);
    assert WithText(before, t) == [] by {
      var none := WithText(before, t);
      assert forall k :: 0 <= k < |none| ==> none[k] in none;
    }
    assert WithText(before + [b] + after, t)[0] == b;
  }

  // ---------------------------------------------------------------------------
  // 3f: submitting the code

  /** The driver's `find_element` by `//button[contains(text(), t)]`: the first
      button whose text contains `t`; `None` where the driver raises. */
  function FirstWithText(buttons: seq<Button>, t: string, from: nat := 0): (r: Option<nat>)
    requires from <= |buttons|
    ensures r.Some? ==> from <= r.value < |buttons| && Contains(buttons[r.value].text, t)
    ensures forall j :: from <= j < |buttons| && (r.None? || j < r.value) ==> !Contains(buttons[j].text, t)
    decreases |buttons| - from
  {
    if from == |buttons| then None
    else if Contains(buttons[from].text, t) then Some(from)
    else FirstWithText(buttons, t, from + 1)
  }

  /** Submitting with a label succeeds when the button found for it is displayed and the
      click goes through; only the first button carrying the label is looked at. */
  predicate LabelSubmits(buttons: seq<Button>, t: string) {
    var k := FirstWithText(buttons, t);
    k.Some? && buttons[k.value].displayed && buttons[k.value].clicks
  }

  predicate IsSubmission(buttons: seq<Button>, s: Submission) {
    && (s.ClickedButton? ==>
          s.labelIndex < |SubmitLabels| && LabelSubmits(buttons, SubmitLabels[s.labelIndex])
          && FirstWithText(buttons, SubmitLabels[s.labelIndex]) == Some(s.index))
    && forall l :: 0 <= l < |SubmitLabels| && (s.PressedEnter? || l < s.labelIndex) ==>
         !LabelSubmits(buttons, SubmitLabels[l])
  }

  /** The loop over the label preference list; the Enter key only when no click went
      through. */
  method SubmitCode(buttons: seq<Button>) returns (s: Submission)
    ensures IsSubmission(buttons, s)
  {
    var submitted := false;
    s := PressedEnter;
    var l := 0;
    while l < |SubmitLabels|
      invariant 0 <= l <= |SubmitLabels|
      invariant !submitted && s == PressedEnter
      invariant forall m :: 0 <= m < l ==> !LabelSubmits(buttons, SubmitLabels[m])
    {
      var found := FirstWithText(buttons, SubmitLabels[l]);
      if found.Some? {
        var b := buttons[found.value];
        if b.displayed && b.clicks {
          s := ClickedButton(l, found.value);
          submitted := true;
          break;
        }
      }
      l := l + 1;
    }
  }

  /** A hidden first "Verify" button is not passed over for a later visible one: the
      search moves on to "Submit". */
  lemma HiddenFirstLabelIsSkipped(buttons: seq<Button>, s: Submission)
    requires IsSubmission(buttons, s) && |buttons| >= 1
    requires Contains(buttons[0].text, "Verify") && !buttons[0].displayed
    ensures s != ClickedButton(0, 0) && (s.ClickedButton? ==> s.labelIndex > 0)
  {
    assert FirstWithText(buttons, "Verify") == Some(0);
    assert !LabelSubmits(buttons, SubmitLabels[0]);
  }

  // ---------------------------------------------------------------------------
  // The whole branch

  /** The page as the OTP steps see it, one snapshot per step since the page changes
      between them. `channels` is `None` when there is no `maskedChannelList` element. */
  datatype VerificationPage = VerificationPage(
    channels: Option<seq<Option<string>>>,
    entryInputs: seq<InputField>,
    nextPageButtons: seq<Button>,
    codeInputs: seq<InputField>,
    codePageButtons: seq<Button>)

  /** What the branch did: the channel chosen, the input that got the phone number, how
      "Next" was pressed, the code typed (stripped), the input it went into and how it
      was submitted. */
  datatype OtpSteps = OtpSteps(
    channel: Option<nat>, phoneInput: Option<nat>, next: NextClick,
    code: string, codeInput: nat, submission: Submission)

  /** The ways the branch raises; all of them end the scrape with no result. */
  datatype OtpError =
    | NoChannelList     // `find_element(By.ID, "maskedChannelList")` raises
    | NoCodeEntered     // "No verification code entered."
    | NoCodeInput       // "Could not find verification code input field."

  /** Which of the branch's errors, if any, a page and an answer to the prompt lead to,
      in the order the branch meets them. */
  function OtpFailure(page: VerificationPage, typedCode: string): Option<OtpError> {
    if page.channels.None? then Some(NoChannelList)
    else if Strip(typedCode) == [] then Some(NoCodeEntered)
    else if forall j :: 0 <= j < |page.codeInputs| ==> !Eligible(page.codeInputs[j], CodeKinds) then Some(NoCodeInput)
    else None
  }

  /** Step 3 when the URL names the verification page, with `typedCode` the operator's
      answer to the prompt. */
  method VerifyAccount(page: VerificationPage, phone: string, typedCode: string)
    returns (r: Result<OtpSteps, OtpError>)
    ensures r.Failure? <==> OtpFailure(page, typedCode).Some?
    ensures r.Failure? ==> r.error == OtpFailure(page, typedCode).value
    ensures r.Success? ==>
      && page.channels.Some?
      && IsChannelChoice(page.channels.value, phone, r.value.channel)
      && IsInputChoice(page.entryInputs, PhoneEntryKinds, r.value.phoneInput)
      && IsNextClick(WithText(page.nextPageButtons, "Next"), r.value.next)
      && r.value.code == Strip(typedCode) != []
      && IsInputChoice(page.codeInputs, CodeKinds, Some(r.value.codeInput))
      && IsSubmission(page.codePageButtons, r.value.submission)
  {
    if page.channels.None? {
      return Failure(NoChannelList);
    }
    var channel := SelectChannel(page.channels.value, phone);
    var phoneInput := FindInput(page.entryInputs, PhoneEntryKinds);
    var next := ClickNext(WithText(page.nextPageButtons, "Next"));
    var code := Strip(typedCode);
    if code == [] {
      return Failure(NoCodeEntered);
    }
    var codeInput := FindInput(page.codeInputs, CodeKinds);
    if codeInput.None? {
      return Failure(NoCodeInput);
    }
    var submission := SubmitCode(page.codePageButtons);
    r := Success(OtpSteps(channel, phoneInput, next, code, codeInput.value, submission));
  }
}
