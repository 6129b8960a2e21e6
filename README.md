# Freedom Mobile data-usage tracker, modelled in Dafny

`freedom_tracker.py` is a command-line script. It logs into the Freedom Mobile
"My Account" portal with a phone number and PIN, passes the SMS one-time-passcode
step, and reads the data used, the plan size and the billing cycle off the dashboard.
It appends the reading to a local history and can announce it with a macOS notification.
The script has three modes:

- `--config` stores the credentials in the keychain;
- `--history` lists the stored readings;
- with no mode flag it scrapes the portal, and `--notify` adds the notification.

This project models the decision rules inside that script and proves properties of them:

- how the typed phone number and PIN are normalised and validated, and what the
  keychain holds afterwards (`credentials.dfy`);
- which delivery channel, input fields and buttons the passcode step picks
  (`otp.dfy`);
- the three regular expressions of the extraction step, as hand-written scanners
  with `re.search` semantics (`patterns.dfy`);
- the extraction step: a first pass over the usage texts, a fallback pass over CSS
  selectors, the billing-cycle scan and the defaults (`extraction.dfy`);
- how the notification text is quoted for AppleScript (`notifier.dfy`);
- the history append and the progress bar of the summary (`history.dfy`);
- the whole scrape, and `main`'s mode priority and notifications (`tracker.dfy`);
- Python string helpers: `strip`, `replace`, `lower`, `in`, `endswith` and negative
  slicing (`text.dfy`). `wrappers.dfy` holds `Option` and `Result`.

The browser, the keychain, the history file and the prompts become inputs:

- the page is the lists of element texts and attributes the driver would return;
- the keychain is a map from account name to stored value;
- the history is the list loaded from the file;
- the prompts are the typed answers.

Scrape loops are methods with loop invariants. Each is proved equal to a function that
states the rule without the loop (`PassOne`, `PassTwo`, `Cycle`, `ExtractionWith`),
and the properties are proved about those functions. The extraction passes take their
patterns as function parameters; `Extraction` and `ExtractUsage` supply the tracker's
three scanners.

In these details the model follows the code as written:

- step 3f looks only at the first button containing each label
  (`find_element`), not at the first displayed one;
- the comment at freedom_tracker.py:379 names the form `X.XX / Y GB`, but the combined
  pattern at line 388 needs `GB` after the first number, so that text gives no plan, and
  the bare search gives `Y` (the total) as the usage (`Patterns.SlashFormWithoutUnit`);
- step 3b accepts inputs of type `tel`, `text` or `number`; step 3e also accepts `password`.

## Model

| member | source | states |
|---|---|---|
| Text.StripIsTrim | freedom_tracker.py:87 | `strip()` returns a slice of its input with whitespace cut off both ends, and the result starts and ends with non-whitespace |
| Text.StripDigits | freedom_tracker.py:92-93 | a string of digits is unchanged by `strip()` |
| Text.Remove | freedom_tracker.py:88 | after `replace(c, "")`, `c` no longer occurs and the text is no longer than before |
| Text.RemoveKeeps | freedom_tracker.py:88 | `replace(c, "")` keeps every other character |
| Text.RemoveAbsent | freedom_tracker.py:88 | removing an absent character changes nothing |
| Text.RemoveAppend | freedom_tracker.py:88 | removal distributes over concatenation |
| Text.LastChars | freedom_tracker.py:246 | `phone[-2:]` is the last two characters, or the whole string when it is shorter, and the string ends with it |
| Text.ContainsFromIff | freedom_tracker.py:242 | Python's `sub in s` holds exactly when `sub` occurs at some position |
| Text.Lower | freedom_tracker.py:242 | `lower()` keeps the length and lower-cases each character |
| Text.LowerIffAnyCase | freedom_tracker.py:242 | `w in s.lower()` holds exactly when `w` occurs in `s` in some mix of cases |
| Credentials.KeychainSet | freedom_tracker.py:38-48 | delete-then-add leaves the account mapped to the new value and every other account unchanged |
| Credentials.KeychainGet | freedom_tracker.py:51-60 | a value exists exactly when the account is present, and it is the stored value stripped |
| Credentials.SaveConfig | freedom_tracker.py:72-76 | the phone and the PIN are stored under their accounts |
| Credentials.SetupConfig | freedom_tracker.py:87-96 | the phone is rejected exactly when its normalised form is not 10 digits; the PIN is rejected exactly when the phone passed and the stripped PIN is not 4 digits; on rejection the keychain is unchanged, otherwise it holds the normalised phone and the stripped PIN |
| Credentials.LoadConfig | freedom_tracker.py:63-69 | credentials are returned exactly when both items exist and are non-empty after stripping |
| Credentials.NormalizePhoneKeeps | freedom_tracker.py:87-88 | normalisation keeps exactly the characters of the stripped input other than `-`, space, `(` and `)` |
| Credentials.DigitsNormalizeToThemselves | freedom_tracker.py:87-88 | a phone typed as digits only is stored exactly as typed |
| Credentials.SetupThenLoad | freedom_tracker.py:63-96 | after a successful setup, `load_config` returns exactly the validated phone and PIN |
| Credentials.SetupTwice | freedom_tracker.py:38-48 | a second setup replaces the first credentials, and a rejected second setup leaves the first ones |
| Credentials.DigitPhoneLength | freedom_tracker.py:89-91 | a phone typed as digits is rejected exactly when it is not 10 long |
| Credentials.DigitPinLength | freedom_tracker.py:93-95 | after a valid phone, a digit PIN is rejected exactly when it is not 4 long |
| Credentials.StrayCharacterRejected | freedom_tracker.py:88-91 | any character other than a digit or a separator inside the phone makes setup fail on the phone |
| Credentials.FormattedPhoneNormalizes | freedom_tracker.py:87-88 | `(AAA) EEE-LLLL` normalises to its digits |
| Credentials.FormattedPhoneAccepted | freedom_tracker.py:87-96 | a number in that layout, with a 4-digit PIN, passes setup |
| Otp.SelectChannel | freedom_tracker.py:246-257 | the channel chosen is the first option whose value ends with `phone[-2:]` and has no `@`; when there is none, nothing is chosen |
| Otp.ChannelOfTenDigitPhone | freedom_tracker.py:246-254 | for a 10-digit phone, an option ending in its last two digits and without `@` is chosen unless an earlier one is |
| Otp.FindInput | freedom_tracker.py:321-334 | the input chosen is the first displayed one whose id is not a login field and whose type is allowed; none when there is no such input (step 3b at lines 262-277 uses the same loop) |
| Otp.CodeInputNoLaterThanPhoneInput | freedom_tracker.py:262-334 | an input eligible for the phone is eligible for the code, so the code input is found no later |
| Otp.WithText | freedom_tracker.py:285 | the XPath query returns exactly the buttons of the page whose text contains the label: each one returned is such a button, and every such button is returned |
| Otp.WithTextAppend | freedom_tracker.py:285 | the query keeps document order: on a page made of two parts, the matches of the first part come before those of the second |
| Otp.WithTextOne | freedom_tracker.py:285 | a single button is returned exactly when its text contains the label |
| Otp.ClickNext | freedom_tracker.py:282-305 | a native click goes to the first displayed, enabled button that accepts it; only when there is none, a script click goes to the first displayed button that accepts one; otherwise nothing is clicked |
| Otp.FirstLabelledButtonIsClicked | freedom_tracker.py:285-291 | when the first button on the page whose text contains the label takes a native click, that button is the one clicked, whatever follows it |
| Otp.FirstWithText | freedom_tracker.py:345 | `find_element` returns the first button containing the label, or nothing |
| Otp.SubmitCode | freedom_tracker.py:343-356 | labels are tried in the order Verify, Submit, Confirm, Next; the first whose first button is displayed and clicks is used; Enter is pressed only when no label worked |
| Otp.HiddenFirstLabelIsSkipped | freedom_tracker.py:343-350 | a hidden first "Verify" button is not clicked, and the search moves on to a later label |
| Otp.VerifyAccount | freedom_tracker.py:246-356 | the step fails when the channel list is missing, when the code is empty, or when no input can take the code, and only then; on success the channel, the phone input, the Next click on the buttons containing `Next`, the code input and the submission each follow the rules above, and the code is the stripped answer |
| Patterns.BareAt | freedom_tracker.py:394 | a capture of `([\d.]+)\s*GB` is an amount: a non-empty run of digits and dots |
| Patterns.BareSplitUnique | freedom_tracker.py:394 | every way the bare pattern can match at a position gives the capture the scanner returns |
| Patterns.BareAtSound | freedom_tracker.py:394 | when the scanner matches, the text has the pattern's shape at that position |
| Patterns.SearchBare | freedom_tracker.py:394 | the bare match found starts at the leftmost position where the pattern matches |
| Patterns.ConnectiveSplitUnique | freedom_tracker.py:388 | `\s*(?:used\s*)?(?:of\|/)` can match in only one way |
| Patterns.CombinedSplitUnique | freedom_tracker.py:388 | every way the combined pattern can match at a position gives the two captures the scanner returns |
| Patterns.CombinedAtShape | freedom_tracker.py:388-394 | a combined match begins with a bare match on the same number, and its second group is a run of digits and dots |
| Patterns.ConnectiveAtSound | freedom_tracker.py:388 | when the connective scanner finds `\s*(?:used\s*)?(?:of\|/)`, the runs it takes are a way of matching it |
| Patterns.TotalAfterSound | freedom_tracker.py:388 | after a bare match, the total the scanner finds completes a way the combined pattern matches, and it is that match's group 2 |
| Patterns.CombinedAtSound | freedom_tracker.py:388 | when the scanner finds a combined match at a position, the regex matches there with the two captures returned |
| Patterns.SearchCombined | freedom_tracker.py:388 | the combined match found is one the scanner finds at its start, and the scanner finds none at an earlier position |
| Patterns.SearchCombinedIsLeftmostMatch | freedom_tracker.py:388 | a combined match is found exactly when the regex can match somewhere; the one found is a way the regex matches at its start, with its captures, and the regex matches at no earlier position |
| Patterns.CombinedImpliesBare | freedom_tracker.py:388-396 | a text the combined pattern matches also matches the bare pattern, no later |
| Patterns.UsedOfFormMatches | freedom_tracker.py:379-388 | `X GB used of Y GB` yields usage `X` and plan `Y` |
| Patterns.SlashFormWithoutUnit | freedom_tracker.py:379-394 | `X / Y GB` does not match the combined pattern, and the bare search captures `Y` |
| Patterns.DateEnds | freedom_tracker.py:425 | the date alternative offers at most two ends, each after its start and inside the text; when it offers two, the two-digit end comes first |
| Patterns.DateEndsMatch | freedom_tracker.py:425 | an end is offered exactly when `\w{3}\s+\d{1,2}\|\d{4}-\d{2}-\d{2}` can match from the start up to it |
| Patterns.LastWithIsLargest | freedom_tracker.py:425 | backtracking over `[-–to]+` from the longest run down passes over no run length that lets the rest match |
| Patterns.FirstWithIsFirst | freedom_tracker.py:424-425 | trying alternatives in order passes over none that works |
| Patterns.SecondDate | freedom_tracker.py:425 | the second date found starts after the separator and ends inside the text |
| Patterns.SecondDateChoice | freedom_tracker.py:425 | there is no second date exactly when no separator run lets a date follow; otherwise it is the date after the longest run that does, as backtracking from the greedy run finds it |
| Patterns.RangeSplitFound | freedom_tracker.py:425 | wherever the range regex can match at a position, the scanner finds a match there |
| Patterns.RangeAtSound | freedom_tracker.py:425 | whatever the scanner captures at a position comes from a way the regex matches there |
| Patterns.SearchRangeStart | freedom_tracker.py:424-427 | the position found, if any, is one where the range pattern matches |
| Patterns.SearchRangeStartIsFirst | freedom_tracker.py:424-427 | no position where the pattern matches is passed over: the search stops there or earlier |
| Patterns.SearchRangeIsLeftmostMatch | freedom_tracker.py:424-427 | a range is found exactly when the regex can match somewhere; the captures are those of a way it matches at the position found, and it matches at no earlier position |
| Patterns.DateSplitIsDate | freedom_tracker.py:425 | a date match spans text of the form `Www D`, `Www DD` (with any run of whitespace) or `YYYY-MM-DD` |
| Patterns.RangeCapturesAreDates | freedom_tracker.py:424-431 | both captured dates have one of those forms |
| Patterns.SpacedRange | freedom_tracker.py:425 | `Jan 5 - Feb 10` captures `Jan 5` and `Feb 10`, the second date with both its digits |
| Patterns.BacktrackedRange | freedom_tracker.py:425 | `Jan 5-oct 3` captures `Jan 5` and `oct 3`: the separator run gives `o` back to the month |
| Extraction.TrackerPatternsNest | freedom_tracker.py:388-396 | whatever the combined pattern finds, the bare pattern finds something too |
| Extraction.TrackerGroupsAreAmounts | freedom_tracker.py:388-410 | every group captured by the usage patterns is a non-empty run of digits and dots |
| Extraction.FirstHit | freedom_tracker.py:383-396 | the element found is the first one whose stripped text the pattern matches |
| Extraction.FirstValueFinds | freedom_tracker.py:383-415 | the first match over a list is found exactly when some element matches |
| Extraction.FirstPass | freedom_tracker.py:383-396 | the loop (skip empty texts; the combined match sets both values and stops; the bare match sets the usage while it is unset) computes `PassOne` |
| Extraction.PassOneAt | freedom_tracker.py:388-392 | when element `c` holds the first combined match, the pass returns that match's two groups |
| Extraction.CombinedOverridesBare | freedom_tracker.py:388-396 | a combined match after a bare match decides both usage and plan |
| Extraction.FirstBareIsKept | freedom_tracker.py:394-396 | with no combined match anywhere, the first bare match is the usage, later ones are ignored, and no plan is set |
| Extraction.PassOneFindsUsage | freedom_tracker.py:383-396 | the first pass finds a usage exactly when some text matches the bare pattern |
| Extraction.PassOneFindsPlan | freedom_tracker.py:388-392 | it sets a plan exactly when some text matches the combined pattern |
| Extraction.FirstSelector | freedom_tracker.py:400-413 | the selector used is the first, in the fixed order, that yields a usage |
| Extraction.SelectorUsageAt | freedom_tracker.py:406-411 | a selector's usage is the bare match of its first matching element |
| Extraction.PassTwoAt | freedom_tracker.py:412-413 | the fallback's usage comes from the first selector that yields one |
| Extraction.SecondPass | freedom_tracker.py:399-415 | the nested loops compute `PassTwo`, the first bare match in selector order and then element order |
| Extraction.PassTwoFindsUsage | freedom_tracker.py:399-415 | the fallback finds a usage exactly when some element of some selector matches the bare pattern |
| Extraction.CycleDates | freedom_tracker.py:417-431 | the loop returns the dates of the first element with a date range, or two empty strings |
| Extraction.CycleIsDatesOrEmpty | freedom_tracker.py:417-431 | the cycle is either two empty strings or two dates |
| Extraction.ExtractUsageWith | freedom_tracker.py:379-452 | the step gives no result without a usage, runs the fallback only when the first pass found nothing, and uses plan `0` when no plan was set |
| Extraction.ExtractUsage | freedom_tracker.py:379-452 | the same with the tracker's three patterns |
| Extraction.SelectorsOnlyAsFallback | freedom_tracker.py:398-399 | once a first-query text matches the bare pattern, what the selectors find makes no difference |
| Extraction.NoUsageNoResult | freedom_tracker.py:433-442 | there is no result exactly when neither pass finds a usage |
| Extraction.ResultShape | freedom_tracker.py:444-452 | the plan is `0` unless a combined match occurred, both amounts are digit-and-dot text, and the cycle is two dates or two empty strings |
| Notifier.EscapeQuotes | freedom_tracker.py:475-476 | escaping never shortens the text |
| Notifier.EscapeQuotesRoundTrip | freedom_tracker.py:475-476 | undoing the escape gives back the original, so every other character is kept, in order |
| Notifier.EscapedQuotesArePreceded | freedom_tracker.py:475-476 | every `"` in the output is immediately preceded by `\` |
| Notifier.NotificationScript | freedom_tracker.py:477 | the script is never shorter than the title, message and sound together |
| Notifier.NotificationScriptReadsBack | freedom_tracker.py:475-477 | for a title and message without backslashes, AppleScript reads the command as the opening words, a literal that gives back the message, the title's words, a literal that gives back the title, then the sound clause |
| Notifier.EscapedLiteralRoundTrip | freedom_tracker.py:475-477 | a title or message without backslashes reads back from the AppleScript literal as itself, and the literal ends at its closing quote |
| Notifier.BackslashBreaksLiteral | freedom_tracker.py:475-477 | a message ending in a backslash does not read back as itself, because that backslash escapes the closing quote |
| History.UsageHistory.constructor | freedom_tracker.py:103-108 | the history starts as the loaded list |
| History.UsageHistory.Append | freedom_tracker.py:131 | the new record goes at the end and the earlier records are kept |
| History.AddUsageRecord | freedom_tracker.py:118-133 | one record with the given values is appended and returned |
| History.Repeat | freedom_tracker.py:505 | `c * n` has `max(n, 0)` copies of `c` |
| History.ProgressBarWidth | freedom_tracker.py:503-505 | the bar is exactly 30 cells when `0 <= filled <= 30`, and longer otherwise |
| History.ProgressBarCells | freedom_tracker.py:505 | the cells before `filled` are full and the rest empty |
| Tracker.VerificationIffMarker | freedom_tracker.py:242 | step 3 runs exactly when `account-verification` occurs in the URL in some case |
| Tracker.Scrape | freedom_tracker.py:207-452 | missing login inputs fail the scrape; a verification page whose step fails fails it; otherwise the result is the extraction's |
| Tracker.CodeOnlyForVerification | freedom_tracker.py:242 | without the verification page, the typed code does not change the result |
| Tracker.ScrapeResultShape | freedom_tracker.py:433-452 | a successful scrape reports digit-and-dot amounts, plan `0` without a combined match, and two dates or none |
| Tracker.ScrapeMode | freedom_tracker.py:576-610 | a failed scrape records nothing and, with `--notify`, sends the failure notice; a successful one appends exactly one record and, with `--notify`, sends the summary notice |
| Tracker.Run | freedom_tracker.py:559-610 | `--config` runs setup whatever else is given; `--history` shows the stored list and changes nothing; a scrape without stored credentials stops with nothing recorded; only a successful scrape appends a record; a notice is sent only with `--notify` after a scrape |

## Left out

- Selenium: launching Chrome, page loads, waits, clicks, typing, screenshots, `page_source`,
  the debug HTML dump and `driver.quit()`. The page is given as element lists.
- Driver exceptions. Only three loops catch them per item: the "Next" clicks of step 3c
  (lines 286-305), the label search of step 3f (lines 344-353) and the selector pass
  (lines 404-415). A click that raises is a button whose `clicks` or `scriptClicks` is
  false, a label with no button is a `None` from `FirstWithText`, and a selector whose
  query or element read raises yields nothing, as when it is given no texts. An
  exception anywhere else (reading the options in step 3a, the inputs in steps 3b and 3e,
  the texts of the first pass or of the cycle scan) reaches the handler at lines 454-462
  and the scrape returns nothing; the model does not represent those failures.
- Step 1's optional switch to phone-number login mode, and the missing-Selenium import
  exit. Neither affects any decision modelled here.
- Step 3b keeps only displayed inputs before looping. The model loops once and skips
  hidden inputs, which picks the same element.
- The keychain subprocesses, `osascript`, the JSON history file and directory creation.
  These are modelled as a map, a returned notice or command text, and the loaded list.
- `input()` prompts, `sys.exit`, argparse and `datetime.now()`. These are inputs or
  outcome values.
- `float()` of the captured text: amounts stay text. A capture such as `1.2.3` would raise
  in the source; the model does not have that failure.
- Float arithmetic: `round`, `remaining_gb`, `percent_used`, the bar's `int(...)` fill
  count, the week-over-week delta in `show_history`, and the formatted summary and
  notification texts. The summary notification's message is an input of `Run`.
- The box and table layout of `format_summary` and `show_history`.
- Digits are ASCII only, whereas Python's `isdigit` and `\d` accept other Unicode digits.
  `\w` is ASCII letters, digits and underscore. `lower()` and `IGNORECASE` fold ASCII
  letters only, whereas Python also folds other letters (e.g. `ſ` to `s`).
- Text.Lower: only ASCII letters are folded, so a URL marker spelt with non-ASCII
  letters that Python folds is not recognised.
- AppleScript's `\n`, `\t` and `\r` escapes. `ReadLiteral` decodes only `\"` and `\\` and
  keeps any other backslash pair as written. The read-back lemmas ask for a title and
  message without backslashes, so they do not depend on this.
- NotificationScript: its own contract gives only a length bound. What the command holds,
  and how AppleScript reads it back, is `NotificationScriptReadsBack`.
- DateEnds: its own contract gives bounds and the try order. That the ends are exactly
  those the date alternative can match is `DateEndsMatch`.
- SecondDate: its own contract gives bounds. The separator length that backtracking
  settles on is `SecondDateChoice`.
- SearchRangeStart: its own contract says only that the pattern matches at the position
  found. That no earlier position matches is `SearchRangeStartIsFirst`.
- SearchCombined: its own contract speaks of the scanner. `SearchCombinedIsLeftmostMatch`
  states the same in terms of the regex's matches.
