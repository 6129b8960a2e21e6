/** Credential setup and loading (`setup_config`, `save_config`, `load_config`), with the
    macOS keychain seen as a map from account label to stored password. */
module Credentials {
  import opened Wrappers
  import opened Text

  /** The generic-password items of the `freedom-tracker` keychain service, by account. */
  type Keychain = map<string, string>

  const PhoneAccount: string := "phone"
  const PinAccount: string := "pin"

  datatype Credentials = Credentials(phone: string, pin: string)

  datatype SetupError =
    | InvalidPhone  // "Phone number must be 10 digits."
    | InvalidPin    // "PIN must be exactly 4 digits."

  /** What setup leaves behind: the keychain afterwards and the error it exited with, if any. */
  datatype Setup = Setup(keychain: Keychain, error: Option<SetupError>)

  /** `_keychain_set`: delete the item (a missing item is not an error), then add it. */
  function KeychainSet(kc: Keychain, account: string, value: string): (kc': Keychain)
    ensures kc' == kc[account := value]
  {
    (map a | a in kc && a != account :: kc[a])[account := value]
  }

  /** `_keychain_get`: the stored password with surrounding whitespace stripped (the value
      printed by `security find-generic-password -w`), or nothing when the item is absent. */
  function KeychainGet(kc: Keychain, account: string): (r: Option<string>)
    ensures r.Some? <==> account in kc
    ensures r.Some? ==> r.value == Strip(kc[account])
  {
    if account in kc then Some(Strip(kc[account])) else None
  }

  /** The phone number as typed, stripped, with every `-`, space, `(` and `)` removed. */
  function NormalizePhone(raw: string): string
  {
    RemoveSeparators(Strip(raw))
  }

  /** The four `replace(..., "")` calls, in the order the source makes them. */
  function RemoveSeparators(s: string): string
  {
    Remove(Remove(Remove(Remove(s, '-'), ' '), '('), ')')
  }

  lemma RemoveSeparatorsAppend(a: string, b: string)
    ensures RemoveSeparators(a + b) == RemoveSeparators(a) + RemoveSeparators(b)
  {
    RemoveAppend(a, b, '-');
    var a1, b1 := Remove(a, '-'), Remove(b, '-');
    RemoveAppend(a1, b1, ' ');
    var a2, b2 := Remove(a1, ' '), Remove(b1, ' ');
    RemoveAppend(a2, b2, '(');
    var a3, b3 := Remove(a2, '('), Remove(b2, '(');
    RemoveAppend(a3, b3, ')');
  }

  /** Digits pass through the separator removal unchanged. */
  lemma RemoveSeparatorsDigits(d: string)
    requires AllDigits(d)
    ensures RemoveSeparators(d) == d
  {
    assert forall c :: c in d ==> IsDigit(c);
    RemoveAbsent(d, '-');
    RemoveAbsent(d, ' ');
    RemoveAbsent(d, '(');
    RemoveAbsent(d, ')');
  }

  /** Normalisation drops the four separators and keeps every other character
      of the stripped input. */
  lemma NormalizePhoneKeeps(raw: string, c: char)
    ensures c in NormalizePhone(raw) <==> c in Strip(raw) && c !in {'-', ' ', '(', ')'}
  {
    var s0 := Strip(raw);
    var s1 := Remove(s0, '-');
    var s2 := Remove(s1, ' ');
    var s3 := Remove(s2, '(');
    if c != '-' { RemoveKeeps(s0, '-', c); }
    if c != ' ' { RemoveKeeps(s1, ' ', c); }
    if c != '(' { RemoveKeeps(s2, '(', c); }
    if c != ')' { RemoveKeeps(s3, ')', c); }
  }

  /** A phone number is accepted when it is non-empty, all digits and 10 long. */
  predicate ValidPhone(p: string) {
    p != [] && PyIsDigit(p) && |p| == 10
  }

  /** A PIN is accepted when it is non-empty, all digits and 4 long. */
  predicate ValidPin(p: string) {
    p != [] && PyIsDigit(p) && |p| == 4
  }

  /** `save_config`: the phone item first, then the PIN item. */
  function SaveConfig(kc: Keychain, phone: string, pin: string): (kc': Keychain)
    ensures kc' == kc[PhoneAccount := phone][PinAccount := pin]
  {
    KeychainSet(KeychainSet(kc, PhoneAccount, phone), PinAccount, pin)
  }

  /** `setup_config` with the two answers to its prompts: the phone is checked before the
      PIN is even read, and the keychain is written only when both checks pass. */
  function SetupConfig(kc: Keychain, rawPhone: string, rawPin: string): (r: Setup)
    ensures r.error == Some(InvalidPhone) <==> !ValidPhone(NormalizePhone(rawPhone))
    ensures r.error == Some(InvalidPin) <==>
      ValidPhone(NormalizePhone(rawPhone)) && !ValidPin(Strip(rawPin))
    ensures r.error.Some? ==> r.keychain == kc
    ensures r.error.None? ==>
      r.keychain == kc[PhoneAccount := NormalizePhone(rawPhone)][PinAccount := Strip(rawPin)]
  {
    var phone := NormalizePhone(rawPhone);
    if !ValidPhone(phone) then Setup(kc, Some(InvalidPhone))
    else
      var pin := Strip(rawPin);
      if !ValidPin(pin) then Setup(kc, Some(InvalidPin))
      else Setup(SaveConfig(kc, phone, pin), None)
  }

  /** `load_config`: credentials only when both items are present and non-empty. */
  function LoadConfig(kc: Keychain): (r: Option<Credentials>)
    ensures r.Some? <==>
      PhoneAccount in kc && PinAccount in kc && Strip(kc[PhoneAccount]) != [] && Strip(kc[PinAccount]) != []
    ensures r.Some? ==> r.value == Credentials(Strip(kc[PhoneAccount]), Strip(kc[PinAccount]))
  {
    var phone := KeychainGet(kc, PhoneAccount);
    var pin := KeychainGet(kc, PinAccount);
    if phone.Some? && phone.value != [] && pin.Some? && pin.value != [] then
      Some(Credentials(phone.value, pin.value))
    else None
  }

  /** A phone number typed as plain digits is stored exactly as typed. */
  lemma DigitsNormalizeToThemselves(d: string)
    requires AllDigits(d)
    ensures NormalizePhone(d) == d
  {
    StripDigits(d);
    RemoveSeparatorsDigits(d);
  }

  /** A successful setup is read back by `load_config` as exactly the validated phone
      number and PIN. */
  lemma SetupThenLoad(kc: Keychain, rawPhone: string, rawPin: string)
    requires SetupConfig(kc, rawPhone, rawPin).error.None?
    ensures LoadConfig(SetupConfig(kc, rawPhone, rawPin).keychain)
      == Some(Credentials(NormalizePhone(rawPhone), Strip(rawPin)))
  {
    var phone, pin := NormalizePhone(rawPhone), Strip(rawPin);
    var kc' := SetupConfig(kc, rawPhone, rawPin).keychain;
    assert kc'[PhoneAccount] == phone && kc'[PinAccount] == pin;
    StripDigits(phone);
    StripDigits(pin);
  }

  /** Running setup twice leaves only the second credentials retrievable; a
      rejected second run leaves the first ones in place. */
  lemma SetupTwice(kc: Keychain, phone1: string, pin1: string, phone2: string, pin2: string)
    requires SetupConfig(kc, phone1, pin1).error.None?
    ensures var kc1 := SetupConfig(kc, phone1, pin1).keychain;
      var second := SetupConfig(kc1, phone2, pin2);
      LoadConfig(second.keychain) == if second.error.None?
        then Some(Credentials(NormalizePhone(phone2), Strip(pin2)))
        else Some(Credentials(NormalizePhone(phone1), Strip(pin1)))
  {
    var kc1 := SetupConfig(kc, phone1, pin1).keychain;
    SetupThenLoad(kc, phone1, pin1);
    if SetupConfig(kc1, phone2, pin2).error.None? {
      SetupThenLoad(kc1, phone2, pin2);
    }
  }

  /** A phone number typed as digits only is refused exactly when it is not 10 long
      (so 9 and 11 digits are refused). */
  lemma DigitPhoneLength(kc: Keychain, d: string, rawPin: string)
    requires AllDigits(d)
    ensures SetupConfig(kc, d, rawPin).error == Some(InvalidPhone) <==> |d| != 10
  {
    DigitsNormalizeToThemselves(d);
  }

  /** After a valid phone number, a PIN typed as digits only is refused exactly when it is
      not 4 long (so 3 and 5 digits are refused). */
  lemma DigitPinLength(kc: Keychain, rawPhone: string, d: string)
    requires ValidPhone(NormalizePhone(rawPhone)) && AllDigits(d)
    ensures SetupConfig(kc, rawPhone, d).error == Some(InvalidPin) <==> |d| != 4
  {
    StripDigits(d);
  }

  /** Any character other than a digit or one of the four separators, anywhere inside
      the stripped phone input, makes setup fail on the phone number. */
  lemma StrayCharacterRejected(kc: Keychain, rawPhone: string, rawPin: string, k: nat)
    requires k < |Strip(rawPhone)|
    requires var c := Strip(rawPhone)[k]; !IsDigit(c) && c !in {'-', ' ', '(', ')'}
    ensures SetupConfig(kc, rawPhone, rawPin).error == Some(InvalidPhone)
  {
    var c := Strip(rawPhone)[k];
    var p := NormalizePhone(rawPhone);
    NormalizePhoneKeeps(rawPhone, c);
    assert c in p;
    var j :| 0 <= j < |p| && p[j] == c;
    assert !AllDigits(p);
  }

  /** A number typed in the usual `(area) exchange-line` layout normalises to its digits. */
  lemma FormattedPhoneNormalizes(area: string, exchange: string, line: string)
    requires AllDigits(area) && AllDigits(exchange) && AllDigits(line)
    requires line != []
    ensures NormalizePhone("(" + area + ") " + exchange + "-" + line) == area + exchange + line
  {
    var s := "(" + area + ") " + exchange + "-" + line;
    assert s[0] == '(' && s[|s| - 1] == line[|line| - 1];
    assert IsDigit(line[|line| - 1]);
    StripUnchanged(s);
    FormattedSeparators(area, exchange, line);
  }

  lemma FormattedSeparators(area: string, exchange: string, line: string)
    requires AllDigits(area) && AllDigits(exchange) && AllDigits(line)
    ensures RemoveSeparators("(" + area + ") " + exchange + "-" + line) == area + exchange + line
  {
    assert RemoveSeparators("(") == [];
    assert RemoveSeparators(") ") == [];
    assert RemoveSeparators("-") == [];
    SeparatedDigits("(", area, ") ", exchange, "-", line);
  }

  /** Digit groups with separator-only text around them lose exactly that text. */
  lemma SeparatedDigits(s1: string, a: string, s2: string, b: string, s3: string, c: string)
    requires AllDigits(a) && AllDigits(b) && AllDigits(c)
    requires RemoveSeparators(s1) == [] && RemoveSeparators(s2) == [] && RemoveSeparators(s3) == []
    ensures RemoveSeparators(s1 + a + s2 + b + s3 + c) == a + b + c
  {
    SeparatorThenDigits([], s1, a);
    assert [] + s1 + a == s1 + a;
    SeparatorThenDigits(s1 + a, s2, b);
    SeparatorThenDigits(s1 + a + s2 + b, s3, c);
  }

  /** One more separator-only piece and one more digit group. */
  lemma SeparatorThenDigits(prefix: string, sep: string, digits: string)
    requires AllDigits(digits) && RemoveSeparators(sep) == []
    ensures RemoveSeparators(prefix + sep + digits) == RemoveSeparators(prefix) + digits
  {
    RemoveSeparatorsDigits(digits);
    RemoveSeparatorsAppend(prefix + sep, digits);
    RemoveSeparatorsAppend(prefix, sep);
    assert RemoveSeparators(prefix) + [] == RemoveSeparators(prefix);
  }

  /** Hence such a number with 3 + 3 + 4 digits is accepted (together with a 4-digit PIN). */
  lemma FormattedPhoneAccepted(kc: Keychain, area: string, exchange: string, line: string, pin: string)
    requires AllDigits(area) && AllDigits(exchange) && AllDigits(line) && AllDigits(pin)
    requires |area| == 3 && |exchange| == 3 && |line| == 4 && |pin| == 4
    ensures SetupConfig(kc, "(" + area + ") " + exchange + "-" + line, pin).error.None?
  {
    FormattedPhoneNormalizes(area, exchange, line);
    StripDigits(pin);
    var d := area + exchange + line;
    assert forall i :: 0 <= i < |d| ==> IsDigit(d[i]) by {
      forall i | 0 <= i < |d| ensures IsDigit(d[i]) {
        if i < 3 { assert d[i] == area[i]; }
        else if i < 6 { assert d[i] == exchange[i - 3]; }
        else { assert d[i] == line[i - 6]; }
      }
    }
  }
}
