/**
 * The top level of `x402_invoke.ts` (`main`, lines 16-155), with the process exit
 * replaced by a returned outcome. First match wins: the status check, then a
 * missing URL, then one invocation through the payment client. The network
 * exchange and JSON parsing are parameters; the clock value, the random suffix
 * and the temporary directory used to name a saved file are too.
 */
module X402Invoke {
  import opened Wrappers
  import opened X402Options
  import opened X402Credentials
  import opened X402Client
  import opened X402Request
  import opened X402Response

  /** What the parsed options ask for. */
  datatype Mode = StatusCheck | MissingUrl | Invoke(url: string)

  /** The document written to standard output after an invocation. */
  datatype Document<J> =
    | Reply(status: int, headers: seq<(string, string)>, body: ResponseBody<J>)
    | ErrorDocument(message: string)

  /** Everything one run of the tool produces, besides its diagnostic lines. */
  datatype Outcome<J> =
    | WalletReport(wallets: seq<Chain>)
    | UsageError
    | Invoked(enabled: seq<Chain>, registrations: seq<Registration>, policies: seq<Policy>,
              request: Request<J>, document: Document<J>, written: Option<FileWrite>)

  /** `options[name] === 'true'`. */
  predicate IsTrue(options: map<string, string>, name: string) {
    Lookup(options, name) == Some("true")
  }

  /**
   * The mode, decided in the source's order: status check, missing URL,
   * invocation. A `true` check or status option wins over everything; without
   * one, a missing or empty URL is the usage error; an invocation always targets
   * the given, non-empty URL.
   */
  function SelectMode(options: map<string, string>): (mode: Mode)
    ensures mode == StatusCheck <==> IsTrue(options, "check") || IsTrue(options, "status")
    ensures mode == MissingUrl <==>
      !IsTrue(options, "check") && !IsTrue(options, "status") && !Usable(Lookup(options, "url"))
    ensures mode.Invoke? ==> Lookup(options, "url") == Some(mode.url) && mode.url != ""
  {
    if IsTrue(options, "check") || IsTrue(options, "status") then StatusCheck
    else if !Usable(Lookup(options, "url")) then MissingUrl
    else Invoke(options["url"])
  }

  /** The process exit code: 0 for the status check and a reply, 1 otherwise. */
  function ExitCode<J>(outcome: Outcome<J>): int {
    match outcome
    case WalletReport(_) => 0
    case UsageError => 1
    case Invoked(_, _, _, _, document, _) => if document.ErrorDocument? then 1 else 0
  }

  /**
   * The `try` block after the request: a failed exchange or an unreadable JSON
   * body becomes an error document; otherwise the reply carries status, headers
   * and the classified body.
   */
  function Respond<J>(fetched: Result<HttpResponse<J>>, tmpDir: string, nowMs: string, suffix: string)
    : (r: (Document<J>, Option<FileWrite>))
    ensures fetched.Failure? ==> r == (ErrorDocument(fetched.message), None)
    ensures fetched.Success? ==>
      var resp := fetched.value;
      && (r.0.ErrorDocument? <==> Classify(ContentTypeOf(resp.contentType)) == JsonKind && resp.json.Failure?)
      && (r.0.ErrorDocument? ==> r.0.message == resp.json.message && r.1 == None)
      && (r.0.Reply? ==> r.0.status == resp.status && r.0.headers == resp.headers)
    ensures r.1.Some? ==> r.0.Reply? && r.0.body.SavedFile? && r.1.value.path == r.0.body.filePath
    ensures fetched.Success? && ReadResponse(fetched.value, tmpDir, nowMs, suffix).Success? ==>
      var reading := ReadResponse(fetched.value, tmpDir, nowMs, suffix).value;
      r == (Reply(fetched.value.status, fetched.value.headers, reading.body), reading.written)
  {
    match fetched
    case Failure(message) => (ErrorDocument(message), None)
    case Success(resp) =>
      match ReadResponse(resp, tmpDir, nowMs, suffix)
      case Failure(message) => (ErrorDocument(message), None)
      case Success(reading) => (Reply(resp.status, resp.headers, reading.body), reading.written)
  }

  /** One run of the tool over its arguments and environment. */
  method Run<J>(args: seq<string>, env: Env, parse: string -> Option<J>,
                exchange: Request<J> -> Result<HttpResponse<J>>,
                tmpDir: string, nowMs: string, suffix: string) returns (outcome: Outcome<J>)
    ensures var options := Parse(args);
      match SelectMode(options)
      case StatusCheck => outcome == WalletReport(AvailableWallets(env))
      case MissingUrl => outcome == UsageError
      case Invoke(url) =>
        var request := RequestPlan(url, Lookup(options, "entrypoint"), Lookup(options, "input"),
                                   Lookup(options, "method"), parse);
        var (document, written) := Respond(exchange(request), tmpDir, nowMs, suffix);
        outcome == Invoked(AvailableWallets(env), RegistrationPlan(env), [SufficientBalance], request, document, written)
  {
    var options := ScanOptions(args);
    var mode := SelectMode(options);
    if mode == StatusCheck {
      var wallets: seq<Chain> := [];
      var tronKey := FindPrivateKey(env, Tron);
      var evmKey := FindPrivateKey(env, Evm);
      if Usable(tronKey) { wallets := wallets + [Tron]; }
      if Usable(evmKey) { wallets := wallets + [Evm]; }
      return WalletReport(wallets);
    }
    if mode == MissingUrl {
      return UsageError;
    }
    var url := options["url"];
    var client, enabled := AssembleClient(env);
    var request := BuildRequest(url, Lookup(options, "entrypoint"), Lookup(options, "input"),
                                Lookup(options, "method"), parse);
    var fetched := exchange(request);
    var (document, written) := Respond(fetched, tmpDir, nowMs, suffix);
    outcome := Invoked(enabled, client.registrations, client.policies, request, document, written);
  }

  /** The status check is decided before the URL: it is chosen whether or not a URL was given. */
  lemma StatusCheckPrecedes(options: map<string, string>)
    requires IsTrue(options, "check") || IsTrue(options, "status")
    ensures SelectMode(options) == StatusCheck
    ensures SelectMode(options - {"url"}) == StatusCheck
  {
    assert Lookup(options - {"url"}, "check") == Lookup(options, "check");
    assert Lookup(options - {"url"}, "status") == Lookup(options, "status");
  }

  /**
   * From the arguments: when the last `--check` flag is followed by no value
   * (or by the literal `true`), the run is a status check, whatever else is given.
   */
  lemma CheckFlagSelectsStatus(args: seq<string>, j: nat)
    requires j < |args| && args[j] == "--check"
    requires FlagValue(args, j) == "true"
    requires forall j' :: j < j' ==> !FlagWithKeyAt(args, j', "check")
    ensures SelectMode(Parse(args)) == StatusCheck
  {
    assert FlagKey(args[j]) == "check";
    ParseLastWins(args, j);
  }

  /**
   * A run that is no status check stops with the usage error exactly when no
   * `--url` flag was given: a given flag always has a non-empty value.
   */
  lemma MissingUrlIffNoUrlFlag(args: seq<string>)
    requires !IsTrue(Parse(args), "check") && !IsTrue(Parse(args), "status")
    ensures SelectMode(Parse(args)) == MissingUrl <==> forall j :: !FlagWithKeyAt(args, j, "url")
  {
    ParseKeys(args, "url");
    if "url" in Parse(args) {
      ParseValuesNonEmpty(args, "url");
    }
  }

  /** The exit code is 0 exactly for a wallet report or a reply document. */
  lemma ExitCodeMeaning<J>(outcome: Outcome<J>)
    ensures ExitCode(outcome) == 0 <==> outcome.WalletReport? || (outcome.Invoked? && outcome.document.Reply?)
    ensures ExitCode(outcome) == 1 <==> outcome.UsageError? || (outcome.Invoked? && outcome.document.ErrorDocument?)
  {
  }
}
