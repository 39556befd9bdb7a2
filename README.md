# x402 invocation tool and SunSwap swap arithmetic, modelled in Dafny

The project models two scripts.

**`x402_invoke.ts`** is a command-line tool that calls an HTTP endpoint through a
payment-aware fetch client (the x402 protocol: a server may answer `402 Payment
Required`, and the client pays with a registered mechanism and retries). The model
covers:

- the option scanner over the command-line tokens;
- the private-key lookup among environment variables per chain family (TRON, EVM);
- the choice between the wallet status check, the usage error and an invocation;
- the registrations and the policy given to the payment client;
- the request it builds: an entrypoint invocation or a passthrough;
- the classification of the response by content type (JSON, saved file, text) and
  the extension of a saved file;
- the run as a whole, with the exit code it ends with.

**`validate_swap.py`** prepares swap parameters for the SunSwap exchange:

- the slippage-protected minimum output in the token's smallest unit;
- the formatting of an amount into that unit;
- a deadline a few minutes ahead of the clock;
- the integer and string fields of the parameter dictionary.

Python's `Decimal` arithmetic is modelled exactly (`Decimals.Dec`, an integer
coefficient `digits` and a scale, standing for `digits / 10^scale`). Its meaning is
given by real numbers, and truncation toward zero is the
predicate `Decimals.TruncatesTo`.

Modules, one per concern:

- `Wrappers`: `Option` and `Result`.
- `Text`: the JavaScript string operations the tool uses.
- `X402Options`: the scanner.
- `X402Credentials`: the key lookup.
- `X402Client`: the client registry, a class updated in place.
- `X402Request`: the request builder.
- `X402Response`: the classifier.
- `X402Invoke`: the top level.
- `Decimals`: exact decimals.
- `IntText`: `str` and `int` on integers.
- `ValidateSwap` and `SwapProperties`: the swap arithmetic and its properties.

Where the source loops or updates state, the model does too:

- `ScanOptions` is a `while` loop proved equal to the recursive `Parse`.
- `AssembleClient` drives a `PaymentClient` object with a `for` loop over the TRON
  networks.
- `BuildRequest` reassigns its `final*` variables as the source does.

Outside effects are parameters of `Run`: the network exchange (`exchange`),
`JSON.parse` (`parse`), the clock, the random suffix and the temporary directory.

## Model

| member | source | states |
|---|---|---|
| X402Options.ScanOptions | x402-payment/src/x402_invoke.ts:19-29 | the scanning loop, which skips a consumed value token, produces exactly `Parse(args)` |
| X402Options.ParseKeys | x402-payment/src/x402_invoke.ts:19-29 | a key is in the options exactly when some token is `--<key>`; a token starting with `--` is never taken as a value |
| X402Options.ParseLastWins | x402-payment/src/x402_invoke.ts:21-27 | for the last `--k` token, `k` is present and holds the next token when that token is non-empty and not a flag, and `"true"` otherwise: later flags overwrite earlier ones |
| X402Options.ParseValuesNonEmpty | x402-payment/src/x402_invoke.ts:24-27 | no option ever holds the empty string |
| X402Credentials.FindPrivateKey | x402-payment/src/x402_invoke.ts:6-14 | the key is always read from one of the family's own variables (TRON_PRIVATE_KEY, PRIVATE_KEY for TRON; EVM_PRIVATE_KEY, ETH_PRIVATE_KEY, PRIVATE_KEY for EVM), never from any other |
| X402Credentials.FindPrivateKeyPriority | x402-payment/src/x402_invoke.ts:6-14 | the key is usable (set and non-empty) exactly when one of the family's variables is. It is then the value of the first usable one in the order TRON_PRIVATE_KEY / EVM_PRIVATE_KEY, ETH_PRIVATE_KEY, then PRIVATE_KEY. Otherwise it is whatever PRIVATE_KEY holds, possibly absent or empty |
| X402Credentials.AvailableWallets | x402-payment/src/x402_invoke.ts:53-63 | the status check reports, and the client enables, TRON exactly when a TRON key is usable and EVM exactly when an EVM key is, each at most once and TRON before EVM |
| X402Credentials.NoKeysNoWallets | x402-payment/src/x402_invoke.ts:6-14 | with none of the four key variables set, no wallet is reported |
| X402Credentials.SpecificKeyWins | x402-payment/src/x402_invoke.ts:7-11 | a usable family-specific variable wins over PRIVATE_KEY |
| X402Client.PaymentClient.constructor | x402-payment/src/x402_invoke.ts:72 | a new client has no registrations and no policies |
| X402Client.PaymentClient.Register | x402-payment/src/x402_invoke.ts:80-81 | `register` appends one (scope, mechanism) pair and leaves the policies alone |
| X402Client.PaymentClient.RegisterPolicy | x402-payment/src/x402_invoke.ts:94 | `registerPolicy` appends one policy and leaves the registrations alone |
| X402Client.AssembleClient | x402-payment/src/x402_invoke.ts:72-94 | the assembled client holds exactly `RegistrationPlan(env)` and the single balance policy, and the enabled families are those with a usable key, `AvailableWallets(env)` |
| X402Client.ForScopesAt | x402-payment/src/x402_invoke.ts:77-82 | the loop gives two registrations per scope: at index `2i` the exact mechanism for scope `i`, at `2i+1` the permit mechanism |
| X402Client.RegistrationPlanShape | x402-payment/src/x402_invoke.ts:74-92 | the plan has 8 registrations for a TRON key (exact then permit on tron:mainnet, tron:nile, tron:shasta, tron:* in order) plus 2 for an EVM key, which come last on eip155:*. Without keys it is empty |
| X402Request.StripTrailingSlash | x402-payment/src/x402_invoke.ts:101 | exactly one trailing `/` is removed when present, and otherwise the URL is unchanged |
| X402Request.BuildRequest | x402-payment/src/x402_invoke.ts:96-119 | the request the builder's reassignments produce equals the declarative `RequestPlan` |
| X402Request.EntrypointRequestShape | x402-payment/src/x402_invoke.ts:100-108 | an entrypoint call ignores `--method`. It POSTs to `<url>/entrypoints/<name>/invoke`, with no doubled slash when the URL ends in `/`, with the JSON header and the input envelope |
| X402Request.InputPayloadCases | x402-payment/src/x402_invoke.ts:104-107 | the envelope's input is `{}` exactly without input. It is the parsed value when the input parses and the raw text when it does not: malformed JSON is no error |
| X402Request.PassthroughRequestShape | x402-payment/src/x402_invoke.ts:109-119 | without an entrypoint the URL is kept and the method is upper-cased or `GET`. There is a body exactly when there is input, and then it is the input verbatim |
| Text.ToUpper | x402-payment/src/x402_invoke.ts:110 | upper-casing keeps the length, maps each ASCII lower-case letter to its capital, keeps every other character, and leaves no lower-case letter |
| Text.ContainsOccurs | x402-payment/src/x402_invoke.ts:128-133 | `includes` holds exactly when the substring occurs at some index |
| Text.Split | x402-payment/src/x402_invoke.ts:134 | `split` gives at least one piece, no piece contains the separator, and joining the pieces with it gives back the string |
| Text.SplitPieces | x402-payment/src/x402_invoke.ts:134 | piece 0 is the text before the first separator. A piece 1 exists exactly when the separator occurs, and it is the text between the first and the second separator |
| X402Response.Classify | x402-payment/src/x402_invoke.ts:128-143 | the body is JSON exactly when `application/json` occurs anywhere. It is a file exactly when it is not JSON and `image/` or `application/octet-stream` occurs. Otherwise it is text |
| X402Response.Extension | x402-payment/src/x402_invoke.ts:133-134 | the extension is never empty, never holds `/` or `;`, and is `bin` for every non-image type |
| X402Response.ImageExtension | x402-payment/src/x402_invoke.ts:134 | for an image type the extension is the text after the first `/`, cut at the next `/` and then at the next `;`, or `bin` when that is empty |
| X402Response.SubtypeExtension | x402-payment/src/x402_invoke.ts:134 | for an image type `<kind>/<subtype>` with a plain subtype, the extension is the subtype |
| X402Response.PngExtension | x402-payment/src/x402_invoke.ts:134 | the extension of `image/png` is `png` |
| X402Response.ReadResponse | x402-payment/src/x402_invoke.ts:125-143 | reading fails exactly for a JSON type whose body does not parse, and then carries the parser's error message. A file type is saved under a path ending in `.<ext>`, reports the byte count, and writes exactly the received bytes. A text type yields the text and writes nothing |
| X402Response.ImageIsSaved | x402-payment/src/x402_invoke.ts:130-140 | an image response `<kind>/<subtype>` is saved under a name ending in `.<subtype>`, with its type, byte count and bytes as received |
| X402Invoke.SelectMode | x402-payment/src/x402_invoke.ts:53-70 | the status check is chosen exactly when `check` or `status` is `true`. Otherwise the usage error is chosen exactly when the URL is missing or empty. An invocation targets the given URL, which is non-empty |
| X402Invoke.Respond | x402-payment/src/x402_invoke.ts:123-154 | a failed exchange gives the error document with the exchange's message. For a received response, the error document comes exactly from a JSON type whose body does not parse, with the parser's message. Otherwise the reply carries the response's status and headers and the body `ReadResponse` classified, and the file write that reading makes, if any. A file is written only alongside a reply whose body reports that file's path |
| X402Invoke.Run | x402-payment/src/x402_invoke.ts:16-155 | one run yields the wallet report, the usage error, or an invocation. The invocation records the enabled families, the registration plan, the balance policy, the planned request, and the document and file the exchanged response leads to. Which one is chosen is the mode of the scanned options |
| X402Invoke.StatusCheckPrecedes | x402-payment/src/x402_invoke.ts:53-70 | `--check` or `--status` selects the status check whether or not a URL is given |
| X402Invoke.CheckFlagSelectsStatus | x402-payment/src/x402_invoke.ts:19-53 | a last `--check` token with no value token after it selects the status check, whatever the other arguments are |
| X402Invoke.MissingUrlIffNoUrlFlag | x402-payment/src/x402_invoke.ts:67-70 | outside the status check, the run stops with the usage error exactly when no `--url` token was given |
| X402Invoke.ExitCodeMeaning | x402-payment/src/x402_invoke.ts:150-154 | the exit code is 0 exactly for a wallet report or a reply document, and 1 exactly for the usage error or an error document |
| Decimals.Mul | sunswap/scripts/validate_swap.py:28 | decimal multiplication is exact: its value is the product of the values |
| Decimals.Sub | sunswap/scripts/validate_swap.py:28 | decimal subtraction is exact: its value is the difference of the values |
| Decimals.PowTen | sunswap/scripts/validate_swap.py:29 | `Decimal('10') ** n` is exactly 10^n for every integer `n`, negative ones included |
| Decimals.ToInt | sunswap/scripts/validate_swap.py:29 | `int()` on a decimal truncates its value toward zero |
| Decimals.Trunc | sunswap/scripts/validate_swap.py:44 | `int()` on a clock reading truncates toward zero |
| IntText.NatToStringValue | sunswap/scripts/validate_swap.py:60 | `str` of a natural is a non-empty digit string that denotes it, with a leading zero only for 0 |
| IntText.IntToString | sunswap/scripts/validate_swap.py:60 | reading `str(n)` back as an integer gives `n`. The string is the canonical spelling: digits with no leading zero other than `0` itself, and a minus sign exactly for negatives |
| ValidateSwap.CalculateMinAmount | sunswap/scripts/validate_swap.py:13-31 | the minimum is `amount * (1 - slippage) * 10^decimals` truncated toward zero, with decimals defaulting to 6 |
| ValidateSwap.FormatAmount | sunswap/scripts/validate_swap.py:47-60 | the string reads back as an integer, that integer is `amount * 10^decimals` truncated toward zero, and the string is that integer's canonical `str` spelling |
| ValidateSwap.GenerateDeadline | sunswap/scripts/validate_swap.py:34-44 | with at least one minute the deadline is strictly after the clock. For every clock reading it is the clock truncated toward zero to whole seconds, plus `60 * minutes` |
| ValidateSwap.ValidateSwapParams | sunswap/scripts/validate_swap.py:63-94 | `amount_in` reads back as the truncated input amount in its unit and `amount_out_min` as the truncated protected minimum, each in its canonical `str` spelling. The deadline is after the clock, and it is the clock truncated toward zero to whole seconds, plus 300 |
| SwapProperties.TargetOrder | sunswap/scripts/validate_swap.py:28-29 | for a non-negative amount, the exact protected target falls as the slippage grows |
| SwapProperties.TargetNonNegative | sunswap/scripts/validate_swap.py:28-29 | for a non-negative amount and a slippage of at most 1, the exact target is non-negative |
| SwapProperties.TargetBelowFull | sunswap/scripts/validate_swap.py:28-29 | for a non-negative amount and slippage, the exact target is at most the full amount in the smallest unit |
| SwapProperties.ZeroSlippageIsFormatted | sunswap/scripts/validate_swap.py:13-60 | with zero slippage the minimum equals the formatted amount read back, for amounts of either sign |
| SwapProperties.MinAmountBounds | sunswap/scripts/validate_swap.py:13-60 | for a non-negative amount and a slippage in [0, 1], the minimum lies between 0 and the formatted amount |
| SwapProperties.MinAmountAntitone | sunswap/scripts/validate_swap.py:13-31 | for a non-negative amount, a larger slippage never gives a larger minimum |

## Left out

- Importing the TRON runtime and the payment library is left out: their signers, mechanisms, fetch client and the 402 payment handshake are external. Mechanisms are data records naming their chain, scheme and signing key, and the exchange is the `exchange` parameter of `Run`.
- X402Invoke.Run: the status check reports which wallets are configured, not their addresses. `getAddress` is the signer library's, and a key it rejects would throw before exit 0.
- Exceptions thrown while constructing a signer or the client are not modelled: the source does not catch them (they happen outside its `try`).
- `JSON.parse` is the `parse` parameter and `JSON.stringify` is left abstract: the request body is the `InputEnvelope` or `Verbatim` value, and the output document is the `Document` value.
- The output formatting (two-space JSON, trailing newline) and the diagnostic lines on standard error are left out.
- The temporary directory, `Date.now()` and `Math.random()` are parameters. Writing the file is not performed: the write is returned as a `FileWrite` value naming the path and the bytes. A failing `writeFileSync` (which would produce the error document) is not modelled.
- X402Response.ReadResponse: the saved path is `tmpDir + "/" + name`. `path.join` normalisation of `tmpDir` (duplicate or trailing separators) is not modelled.
- Text.ToUpper: only ASCII letters are upper-cased. JavaScript's full Unicode case mapping (which can change the length, as for `ß`) is not modelled.
- Option keys are plain map keys: the prototype side effects of keys such as `__proto__` on a JavaScript object are not modelled.
- The float fields of `validate_swap_params` (`slippage_percent`, `expected_output`, `minimum_output`) are not modelled, because they are binary floating-point values. The model keeps `amount_in`, `amount_out_min` and `deadline`.
- ValidateSwap.CalculateMinAmount: the inputs are already decimals. Python's `Decimal(str(float))`, which turns a float into its shortest decimal text first, is not modelled.
- ValidateSwap.CalculateMinAmount: decimal arithmetic is exact. Python's default context rounds the result of every operation to 28 significant digits: `1 - slippage`, both products and the power of ten. The model differs whenever one of those results needs more than 28 digits.
- ValidateSwap.CalculateMinAmount: the model is total. Python raises `decimal.Overflow` when an exponent leaves the context's range (Emax 999999), for example for `decimals = 1000000`, and the model returns a value there.
- ValidateSwap.FormatAmount: exact arithmetic where Python rounds the product and the power of ten to 28 significant digits, and a value where Python raises `decimal.Overflow` for out-of-range exponents, as for `CalculateMinAmount`.
- Reading an integer back (`IntText.ParseInt`) accepts only what `str` produces. Python's `int` also accepts a plus sign, surrounding whitespace and underscores between digits; the model refuses them.
- A JSON body that fails to parse carries the message the platform's parser throws (the `json` field of `HttpResponse`), taken as given: its wording is the parser's and is not modelled.
- ValidateSwap.GenerateDeadline: the clock `time.time()` is the parameter `now`, a real. The float resolution of the clock is not modelled.
- The `main` functions (argument parsing with argparse, printing, `time.localtime` formatting, process exit) are left out. For `x402_invoke.ts` the exit code is the function `ExitCode` of the run's outcome.
