# UPI callback normaliser: a Dafny model

This project models the logic of the two native shims of a Flutter UPI
payment app: `MainActivity` on Android and `AppDelegate` on iOS. Each shim
answers two method calls from the application layer over the
`upi_payment_channel` method channel:

- `checkAppInstallation` asks whether a payment app is installed;
- `launchApp` opens a payment app by its URL scheme.

Each shim also catches the payment app's return callback and normalises it
into the triple `(status, txnId, response)` that it pushes back as
`onPaymentResponse`.

Modules:

- `Wrappers`: `Option`, for Kotlin nullables and Swift optionals.
- `Normalizer`: the part both shims share.
  - `Associate` builds a map from key/value pairs left to right, so a later
    duplicate overwrites an earlier one.
  - `Coalesce` is an elvis chain (`?:` / `??`): the first key present wins,
    and a key present with an empty value stops the chain.
  - `Normalize` applies the chains `Status`, `status`, `"FAILURE"` and
    `txnId`, `ApprovalRefNo`, `""`, and carries the raw payload unchanged.
- `Bridge`: the reply a handler gives through `result`, which is one of
  `Success(bool)`, `Error(code)` or `NotImplemented`.
- `Android`: the shim in `MainActivity.kt`.
  - The flat-string parser: Kotlin `split("&")`, `split("=", limit = 2)` and
    `associate`.
  - The URI path.
  - The intent routing.
  - The `when` dispatcher.
- `Ios`: the shim in `AppDelegate.swift`.
  - The scheme registry and the availability check.
  - The `launchApp` error selection.
  - The `switch` dispatcher.
  - The `open url` guard.
  - The `for item in queryItems` loop, written as a method with a loop
    invariant and proved against `Associate`.

Operating-system services become values:

- Android's `Device` holds two oracles: whether `getPackageInfo` finds a
  package, and whether `startActivity` returns without throwing.
- iOS's `Os` holds three oracles: whether `URL(string:)` accepts a string,
  what `canOpenURL` answers, and what the `open` completion reports.

What a shim would send with `invokeMethod` is returned as a value.

The parsing part of `parseUPIResponseString` cannot throw. `split` and
`associate` do not throw, and `parts[0]` always exists because `split`
returns at least one part. So `ParseUpiResponseString` is total. The
`catch` branch (`MainActivity.kt:92-93`) can be reached only through the
send at line 91, for example when `invokeMethod` itself throws. The send is
abstracted to a returned value, so that branch's second
`("FAILURE", "", response)` triple is not modelled. On the empty string the
normal path gives the triple `("FAILURE", "", "")` (`EmptyStringResponse`).

The URI path `parseUPIResponse` has no `try`. `getQueryParameter` throws on
an opaque URI such as `upi:pay?Status=SUCCESS`, so for such a URI the
exception escapes and nothing is sent. The model says this with
`Uri.hierarchical` and an `Option` result.

The error codes differ between the platforms. Android answers a missing
argument with `INVALID_ARGUMENT`; iOS answers with `INVALID_ARGUMENTS`. The
model keeps both as written.

## Model

| member | source | states |
|---|---|---|
| Normalizer.Associate | android/app/src/main/kotlin/com/example/upi/MainActivity.kt:83-86 | a key is in the built map iff some pair carries it |
| Normalizer.AssociateSnoc | ios/Runner/AppDelegate.swift:117-119 | storing one more pair changes exactly the entry for its key |
| Normalizer.AssociateLastWins | android/app/src/main/kotlin/com/example/upi/MainActivity.kt:83-86 | the value kept for a key is the value of its last occurrence |
| Normalizer.Coalesce | android/app/src/main/kotlin/com/example/upi/MainActivity.kt:88-89 | the result is the value of the first listed key present; if none is present, the result is the default |
| Normalizer.Normalize | android/app/src/main/kotlin/com/example/upi/MainActivity.kt:88-91 | status comes from `Status`, else `status`, else `"FAILURE"`; txnId comes from `txnId`, else `ApprovalRefNo`, else `""`; response is the raw payload |
| Normalizer.NormalizeOnlyReadsLookupKeys | ios/Runner/AppDelegate.swift:122-123 | two maps that agree on the four looked-up keys give the same triple, so extra parameters are ignored |
| Android.Split | android/app/src/main/kotlin/com/example/upi/MainActivity.kt:83 | `split("&")` gives at least one part, and no part contains the separator |
| Android.JoinSplit | android/app/src/main/kotlin/com/example/upi/MainActivity.kt:83 | joining the parts of a split gives the input back |
| Android.SplitWithoutSeparator | android/app/src/main/kotlin/com/example/upi/MainActivity.kt:83 | a string without `&` splits into itself alone |
| Android.SplitCons | android/app/src/main/kotlin/com/example/upi/MainActivity.kt:83 | a separator-free prefix followed by `&` becomes the first part |
| Android.SplitJoin | android/app/src/main/kotlin/com/example/upi/MainActivity.kt:83 | splitting a join of separator-free parts gives the same parts |
| Android.SplitFirst | android/app/src/main/kotlin/com/example/upi/MainActivity.kt:84 | `split("=", limit = 2)` gives one part (the whole string) iff there is no `=`; otherwise two parts cut at the first `=`, and the first part has no `=` |
| Android.FirstCutUnique | android/app/src/main/kotlin/com/example/upi/MainActivity.kt:84 | a string has only one cut at its first separator |
| Android.SegmentToPair | android/app/src/main/kotlin/com/example/upi/MainActivity.kt:84-85 | a segment without `=` maps to itself with value `""`; otherwise key + `=` + value rebuilds it and the key has no `=` |
| Android.SegmentOfPair | android/app/src/main/kotlin/com/example/upi/MainActivity.kt:84-85 | `key=value` reads back as `(key, value)` whenever the key has no `=`, even if the value has one |
| Android.ValueKeepsEquals | android/app/src/main/kotlin/com/example/upi/MainActivity.kt:84 | `a=b=c` gives key `a` and value `b=c` |
| Android.ParseUpiResponseString | android/app/src/main/kotlin/com/example/upi/MainActivity.kt:81-95 | the parse is total, and the response sent on is the input string itself |
| Android.ParseParams | android/app/src/main/kotlin/com/example/upi/MainActivity.kt:83-86 | a key is in the parsed map iff some `&`-segment has that key (with `ParamsLastWins`, which value it keeps) |
| Android.ParamsLastWins | android/app/src/main/kotlin/com/example/upi/MainActivity.kt:83-86 | for a repeated key, the value of its last segment is kept |
| Android.StatusDefaultsToFailure | android/app/src/main/kotlin/com/example/upi/MainActivity.kt:88 | no segment keyed `Status` or `status` gives status `"FAILURE"` |
| Android.StatusFromLastSegment | android/app/src/main/kotlin/com/example/upi/MainActivity.kt:83-88 | the status is the value of the last `Status` segment; with no `Status` segment, it is the value of the last `status` segment |
| Android.TxnIdFromLastSegment | android/app/src/main/kotlin/com/example/upi/MainActivity.kt:83-89 | the txnId is the value of the last `txnId` segment; with no `txnId` segment, it is the value of the last `ApprovalRefNo` segment |
| Android.TxnIdDefaultsToEmpty | android/app/src/main/kotlin/com/example/upi/MainActivity.kt:89 | no segment keyed `txnId` or `ApprovalRefNo` gives txnId `""` |
| Android.ParseEncoded | android/app/src/main/kotlin/com/example/upi/MainActivity.kt:83-86 | parsing `k1=v1&...&kn=vn` gives the map of those pairs, with the last duplicate winning; keys are free of `&` and `=`, and values are free of `&` |
| Android.EmptyStringResponse | android/app/src/main/kotlin/com/example/upi/MainActivity.kt:82-94 | the empty string gives `("FAILURE", "", "")` |
| Android.PresentButEmptyStatus | android/app/src/main/kotlin/com/example/upi/MainActivity.kt:85-88 | a bare `Status` segment gives status `""`, not `"FAILURE"` |
| Android.SuccessScenario | android/app/src/main/kotlin/com/example/upi/MainActivity.kt:81-91 | `Status=SUCCESS&txnId=ABC123&extra=junk` gives `("SUCCESS", "ABC123", <input>)` |
| Android.StatusPriority | android/app/src/main/kotlin/com/example/upi/MainActivity.kt:88 | `Status` beats `status` even when `status` comes first |
| Android.RepeatedKeyLastWins | android/app/src/main/kotlin/com/example/upi/MainActivity.kt:83-89 | `txnId=T1&txnId=T2` gives txnId `T2` |
| Android.ParseUpiResponse | android/app/src/main/kotlin/com/example/upi/MainActivity.kt:71-79 | a triple is produced iff the URI is hierarchical (`getQueryParameter` throws on an opaque one, uncaught); its status is the `Status` parameter, else `status`, else `"FAILURE"`; its txnId is `txnId`, else `ApprovalRefNo`, else `""`; its response is the URI's text |
| Android.IsUpiUri | android/app/src/main/kotlin/com/example/upi/MainActivity.kt:59 | a UPI callback iff the data URI is present and its scheme is present and equal to `upi` (Kotlin's null-safe `==`) |
| Android.HandleUpiResponse | android/app/src/main/kotlin/com/example/upi/MainActivity.kt:56-69 | a `upi`-scheme data URI goes to the URI parser, which sends nothing for an opaque URI; otherwise a `response` extra goes to the string parser; otherwise (or with no intent) nothing is sent |
| Android.SentResponseIsRawPayload | android/app/src/main/kotlin/com/example/upi/MainActivity.kt:56-93 | whatever is sent carries the untouched payload it came from |
| Android.Dispatch | android/app/src/main/kotlin/com/example/upi/MainActivity.kt:19-43 | `checkAppInstallation` and `launchApp` answer the probe's boolean when their argument is present, else `INVALID_ARGUMENT`; the reply is not-implemented iff the method is neither |
| Android.MissingArgumentIsError | android/app/src/main/kotlin/com/example/upi/MainActivity.kt:21-38 | a missing argument gives an error, never a boolean |
| Ios.SchemeRegistry | ios/Runner/AppDelegate.swift:67-77 | the registry's nine ids and the scheme of each; the always-available ids are registered |
| Ios.SchemeRegistrySize | ios/Runner/AppDelegate.swift:67-77 | the registry has exactly 9 distinct keys |
| Ios.CheckAppInstallation | ios/Runner/AppDelegate.swift:65-93 | `apple.pay` and `web.payment` are available; an unregistered id is not available; a registered id is available iff its scheme parses and can be opened |
| Ios.AlwaysAvailableIgnoresOs | ios/Runner/AppDelegate.swift:80-83 | the always-available ids report `true` whatever the operating system answers |
| Ios.AvailableOnlyIfRegistered | ios/Runner/AppDelegate.swift:80-89 | an id reported available is in the registry |
| Ios.LaunchApp | ios/Runner/AppDelegate.swift:95-108 | the reply is `INVALID_URL` iff the string does not parse; `CANNOT_OPEN` iff it parses but cannot be opened; success iff it can be opened, carrying the completion's flag |
| Ios.StringArgument | ios/Runner/AppDelegate.swift:27-28 | an argument is found iff the arguments form a dictionary holding a string under that key |
| Ios.Dispatch | ios/Runner/AppDelegate.swift:24-43 | each method delegates when its string argument is present; the reply is `INVALID_ARGUMENTS` iff a known method lacks it; not-implemented iff the method is unknown |
| Ios.CollectQueryItems | ios/Runner/AppDelegate.swift:111-120 | the loop builds exactly the left-to-right map of (name, value or `""`) pairs; a name is stored iff some item carries it |
| Ios.HandlePaymentResponse | ios/Runner/AppDelegate.swift:110-125 | the triple is the normalised query map, with the URL's `absoluteString` as response |
| Ios.NoQueryItemsResponse | ios/Runner/AppDelegate.swift:111-124 | a URL without query items gives `("FAILURE", "", url)` |
| Ios.ItemLastWins | ios/Runner/AppDelegate.swift:117-119 | the last item of a name decides its entry, and a nil value is stored as `""` |
| Ios.ItemDefaults | ios/Runner/AppDelegate.swift:122-123 | no item named `Status` or `status` gives status `"FAILURE"`; no item named `txnId` or `ApprovalRefNo` gives txnId `""` |
| Ios.IsPaymentCallback | ios/Runner/AppDelegate.swift:57 | a payment callback iff the scheme is present and equal to `upipaymentapp` and the host is present and equal to `upi` (Swift's optional `==`) |
| Ios.OpenUrl | ios/Runner/AppDelegate.swift:50-63 | a triple is sent iff the scheme is `upipaymentapp` and the host is `upi`, and such a URL is answered `true`; any other URL gets the superclass's answer |

## Left out

- The method-channel fields (`methodChannel`) and their setup are not modelled. So is `invokeMethod` delivery, including sending nothing while the channel is still null. This is foreign messaging; the sent triple is returned instead.
- Activity and app lifecycle (`onResume`, `onNewIntent`, `didFinishLaunchingWithOptions`, plugin registration) is platform plumbing and is left out. The model starts from the intent or URL those hooks pass on.
- `packageManager.getPackageInfo`, `startActivity`, `URL(string:)`, `canOpenURL` and the `open` completion handler are operating-system services. They appear only as the oracle fields of `Device` and `Os`. The asynchrony of the completion handler is not modelled.
- The internals of `Uri.parse`, `getQueryParameter`, `toString`, `URLComponents` and `absoluteString` are library behaviour and are not modelled. This covers percent-decoding and which value `getQueryParameter` picks for a repeated name. A `Uri` carries its query lookup and text as given, and a `Url` its query items and text.
- Android.Dispatch: only string arguments are modelled. On Android, `call.argument<String>` on a non-map argument or a non-string value is an unchecked cast whose outcome belongs to the channel library.
- Android.ParseUpiResponseString: the model yields exactly one triple per string. The source can send two: if the send at `MainActivity.kt:91` throws, the `catch` at lines 92-93 sends a second `("FAILURE", "", response)`. The send is abstracted to a returned value, so its failure is not modelled.
- Android.ParseUpiResponse: an opaque URI is modelled as "nothing sent". The exception that then escapes `onResume` or `onNewIntent` is not modelled further.
- Ios.CollectQueryItems and Ios.ItemLastWins compare query-item names by code points, as `Associate` does. The `[String: String]` dictionary at `AppDelegate.swift:111-119` compares keys by Unicode canonical equivalence, so in the source `"caf\u{E9}"` and `"cafe\u{301}"` are one entry and the later item overwrites it, while the model keeps two entries. Unicode normalisation is not modelled. The sent triple does not depend on the difference: `Status`, `status`, `txnId` and `ApprovalRefNo` have no other canonically equivalent spelling. Android compares keys by code units, as the model does.
- Ios.Dispatch: the model always gives one reply. The source's handler captures `[weak self]` (`AppDelegate.swift:24`, `:29`, `:36`). When `self` is gone, `checkAppInstallation` and `launchApp` are not called and no reply is given at all. Object lifetime is not modelled.
