/** `scrape_freedom_mobile` as a whole and `main`: which mode runs, how a scrape ends,
    what is recorded and which notification is sent. The browser, the keychain, the
    history file and the prompts are replaced by what they would give: page snapshots, a
    keychain map, the loaded history and the typed answers. */
module Tracker {
  import opened Wrappers
  import opened Text
  import opened Credentials
  import opened Otp
  import opened Patterns
  import opened Extraction
  import opened Notifier
  import opened History

  // ---------------------------------------------------------------------------
  // One scrape

  /** The portal as the scrape meets it: whether the login form has its phone and PIN
      inputs, the URL after signing in, the verification pages and the dashboard. */
  datatype Portal = Portal(
    loginForm: bool,
    urlAfterLogin: string,
    verification: VerificationPage,
    dashboard: Dashboard)

  /** The ways a scrape ends with no result (`return None`). */
  datatype ScrapeError =
    | MissingLoginInput               // `find_element` for `msisdnInput` or `pinInput` raises
    | VerificationFailed(e: OtpError) // an exception raised in step 3
    | NoUsageFound                    // "Could not find usage data on the page."

  const VerificationMarker: string := "account-verification"

  /** Step 3 runs when the URL, lower-cased, contains `account-verification`. */
  predicate NeedsVerification(url: string) {
    Contains(Lower(url), VerificationMarker)
  }

  /** Step 3 runs exactly when the marker, in any case, occurs somewhere in the URL. */
  lemma VerificationIffMarker(url: string)
    ensures NeedsVerification(url) <==> exists k :: OccursAnyCaseAt(url, VerificationMarker, k)
  {
    LowerIffAnyCase(url, VerificationMarker);
  }

  /** The scrape's result, stated without its steps. */
  function ScrapeOutcome(p: Portal, typedCode: string): Result<Snapshot, ScrapeError> {
    if !p.loginForm then Failure(MissingLoginInput)
    else if NeedsVerification(p.urlAfterLogin) && OtpFailure(p.verification, typedCode).Some? then
      Failure(VerificationFailed(OtpFailure(p.verification, typedCode).value))
    else
      match Extraction.Extraction(p.dashboard)
      case None => Failure(NoUsageFound)
      case Some(s) => Success(s)
  }

  /** `scrape_freedom_mobile(phone, pin)`: sign in, pass the verification step when the
      portal asks for it, then read the dashboard. */
  method Scrape(p: Portal, phone: string, typedCode: string) returns (r: Result<Snapshot, ScrapeError>)
    ensures r == ScrapeOutcome(p, typedCode)
  {
    if !p.loginForm {
      return Failure(MissingLoginInput);
    }
    if NeedsVerification(p.urlAfterLogin) {
      var v := VerifyAccount(p.verification, phone, typedCode);
      if v.Failure? {
        return Failure(VerificationFailed(v.error));
      }
    }
    var s := ExtractUsage(p.dashboard);
    if s.None? {
      return Failure(NoUsageFound);
    }
    r := Success(s.value);
  }

  /** When the portal does not ask for verification, the code typed (or not) makes no
      difference. */
  lemma CodeOnlyForVerification(p: Portal, code1: string, code2: string)
    requires !NeedsVerification(p.urlAfterLogin)
    ensures ScrapeOutcome(p, code1) == ScrapeOutcome(p, code2)
  {
  }

  /** A successful scrape reports `[\d.]+` amounts and a cycle of two dates or none, and
      the plan is `0` unless the dashboard showed a combined reading. */
  lemma ScrapeResultShape(p: Portal, typedCode: string)
    requires ScrapeOutcome(p, typedCode).Success?
    ensures var s := ScrapeOutcome(p, typedCode).value;
      && IsAmount(s.usage) && IsAmount(s.plan)
      && ((s.cycleStart == "" && s.cycleEnd == "") || (IsDateText(s.cycleStart) && IsDateText(s.cycleEnd)))
    ensures (forall j :: 0 <= j < |p.dashboard.usageTexts| ==> Hit(CombinedGroups, p.dashboard.usageTexts[j], true).None?) ==>
      ScrapeOutcome(p, typedCode).value.plan == DefaultPlan
  {
    ResultShape(p.dashboard);
  }

  // ---------------------------------------------------------------------------
  // main

  /** The command-line flags. */
  datatype Options = Options(config: bool, notify: bool, history: bool)

  /** How a run of the tracker ends. */
  datatype Outcome =
    | SetupRan(setup: Setup)                   // `--config`
    | HistoryShown(records: seq<UsageRecord>)  // `--history`
    | NoConfiguration                          // "No configuration found.", exit status 1
    | ScrapeFailed(error: ScrapeError)         // "Failed to scrape usage data.", exit status 1
    | Recorded(record: UsageRecord)            // the summary of the new record is printed

  const NotificationSound: string := "default"
  const FailureTitle: string := "Freedom Mobile Tracker"
  const FailureMessage: string := "\U{26A0}\U{FE0F} Failed to retrieve data usage. Check the script."
  const SummaryTitle: string := "\U{1F4F1} Weekly Data Summary"

  /** A notification `main` sends: its title and message. */
  datatype Notice = Notice(title: string, message: string)

  /** The `osascript` command that shows a notice. */
  function NoticeScript(n: Notice): string {
    NotificationScript(n.title, n.message, NotificationSound)
  }

  /** The scrape mode of `main` once the credentials are loaded: scrape, and record the
      result or report the failure, notifying when `notify` is set. */
  method ScrapeMode(notify: bool, creds: Credentials, h: UsageHistory, portal: Portal, typedCode: string,
                    scrapedAt: string, weekEnding: string, summaryMessage: string)
    returns (out: Outcome, sent: Option<Notice>)
    modifies h
    ensures match ScrapeOutcome(portal, typedCode)
      case Failure(e) =>
        (&& out == ScrapeFailed(e) && h.records == old(h.records)
         && sent == (if notify then Some(Notice(FailureTitle, FailureMessage)) else None))
      case Success(s) =>
        (&& out == Recorded(UsageRecord(scrapedAt, weekEnding, s.usage, s.plan, s.cycleStart, s.cycleEnd))
         && h.records == old(h.records) + [out.record]
         && sent == (if notify then Some(Notice(SummaryTitle, summaryMessage)) else None))
  {
    sent := None;
    var result := Scrape(portal, creds.phone, typedCode);
    if result.Failure? {
      if notify {
        sent := Some(Notice(FailureTitle, FailureMessage));
      }
      return ScrapeFailed(result.error), sent;
    }
    var s := result.value;
    var record := AddUsageRecord(h, scrapedAt, weekEnding, s.usage, s.plan, s.cycleStart, s.cycleEnd);
    out := Recorded(record);
    if notify {
      sent := Some(Notice(SummaryTitle, summaryMessage));
    }
  }

  /** `main`, given the keychain, the loaded history and what the run would read:
      the answers to the setup prompts, the portal, the code typed, the two timestamps
      and the formatted summary line for the notification. It returns how the run ends,
      the keychain afterwards and the notification sent, if any. The mode flags are
      tried in a fixed order: `--config`, then `--history`, then scraping, which needs
      stored credentials. */
  method Run(opts: Options, kc: Keychain, rawPhone: string, rawPin: string, h: UsageHistory,
             portal: Portal, typedCode: string, scrapedAt: string, weekEnding: string, summaryMessage: string)
    returns (out: Outcome, kc': Keychain, sent: Option<Notice>)
    modifies h
    ensures opts.config ==> out == SetupRan(SetupConfig(kc, rawPhone, rawPin)) && kc' == out.setup.keychain
    ensures !opts.config ==> kc' == kc
    ensures !opts.config && opts.history ==> out == HistoryShown(old(h.records))
    ensures !opts.config && !opts.history && LoadConfig(kc).None? ==> out == NoConfiguration
    ensures !opts.config && !opts.history && LoadConfig(kc).Some? ==>
      match ScrapeOutcome(portal, typedCode)
      case Failure(e) => out == ScrapeFailed(e)
      case Success(s) => out == Recorded(UsageRecord(scrapedAt, weekEnding, s.usage, s.plan, s.cycleStart, s.cycleEnd))
    ensures out.Recorded? ==> h.records == old(h.records) + [out.record]
    ensures !out.Recorded? ==> h.records == old(h.records)
    ensures sent.Some? <==> opts.notify && (out.ScrapeFailed? || out.Recorded?)
    ensures sent.Some? && out.ScrapeFailed? ==> sent.value == Notice(FailureTitle, FailureMessage)
    ensures sent.Some? && out.Recorded? ==> sent.value == Notice(SummaryTitle, summaryMessage)
  {
    if opts.config {
      var setup := SetupConfig(kc, rawPhone, rawPin);
      return SetupRan(setup), setup.keychain, None;
    }
    if opts.history {
      return HistoryShown(h.records), kc, None;
    }
    var config := LoadConfig(kc);
    if config.None? {
      return NoConfiguration, kc, None;
    }
    kc' := kc;
    out, sent := ScrapeMode(opts.notify, config.value, h, portal, typedCode, scrapedAt, weekEnding, summaryMessage);
  }
}
