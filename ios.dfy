/**
 * The iOS shim (`AppDelegate`): the provider scheme registry and
 * availability check, the launch error selection, the method-call
 * dispatcher, the `open url` routing guard, and the query-item loop that
 * feeds the callback normaliser. What would be sent with `invokeMethod` is
 * returned.
 */
module Ios {
  import opened Wrappers
  import opened Normalizer
  import opened Bridge

  // ---------------------------------------------------------------------
  // The operating system

  /**
   * What the shim asks of the operating system, for a URL string: whether
   * `URL(string:)` accepts it, whether `canOpenURL` says yes, and the success
   * flag the `open` completion handler reports.
   */
  datatype Os = Os(parsesAsUrl: string -> bool, canOpenUrl: string -> bool, openSucceeds: string -> bool)

  // ---------------------------------------------------------------------
  // Scheme registry and availability

  /** Provider ids (Android package names) and the URL scheme that probes each on iOS. */
  const SchemeMap: map<string, string> := map[
    "com.google.android.apps.nbu.paisa.user" := "tez://",
    "com.phonepe.app" := "phonepe://",
    "net.one97.paytm" := "paytm://",
    "in.amazon.mShop.android.shopping" := "amazonpay://",
    "in.org.npci.upiapp" := "bhim://",
    "com.dreamplug.androidapp" := "cred://",
    "com.paypal.ppmobile" := "paypal://",
    "apple.pay" := "applepay://",
    "web.payment" := "https://"
  ]

  /** Provider ids reported available without any probe. */
  const AlwaysAvailable: set<string> := {"apple.pay", "web.payment"}

  /** The registry's providers and their schemes; the always-available ids are among them. */
  lemma SchemeRegistry()
    ensures SchemeMap.Keys == {
      "com.google.android.apps.nbu.paisa.user", "com.phonepe.app", "net.one97.paytm",
      "in.amazon.mShop.android.shopping", "in.org.npci.upiapp", "com.dreamplug.androidapp",
      "com.paypal.ppmobile", "apple.pay", "web.payment"}
    ensures SchemeMap["com.google.android.apps.nbu.paisa.user"] == "tez://"
    ensures SchemeMap["com.phonepe.app"] == "phonepe://"
    ensures SchemeMap["net.one97.paytm"] == "paytm://"
    ensures SchemeMap["in.amazon.mShop.android.shopping"] == "amazonpay://"
    ensures SchemeMap["in.org.npci.upiapp"] == "bhim://"
    ensures SchemeMap["com.dreamplug.androidapp"] == "cred://"
    ensures SchemeMap["com.paypal.ppmobile"] == "paypal://"
    ensures SchemeMap["apple.pay"] == "applepay://"
    ensures SchemeMap["web.payment"] == "https://"
    ensures AlwaysAvailable <= SchemeMap.Keys
  {
  }

  /**
   * `checkAppInstallation`: the always-available ids report `true` at once;
   * an unknown id, or a scheme `URL(string:)` rejects, reports `false`;
   * otherwise `canOpenURL` on the mapped scheme decides.
   */
  function CheckAppInstallation(packageName: string, os: Os): (available: bool)
    ensures packageName in AlwaysAvailable ==> available
    ensures packageName !in AlwaysAvailable && packageName !in SchemeMap ==> !available
    ensures packageName !in AlwaysAvailable && packageName in SchemeMap ==>
      available == (os.parsesAsUrl(SchemeMap[packageName]) && os.canOpenUrl(SchemeMap[packageName]))
  {
    if packageName == "apple.pay" || packageName == "web.payment" then true
    else if packageName !in SchemeMap then false
    else
      var scheme := SchemeMap[packageName];
      if !os.parsesAsUrl(scheme) then false else os.canOpenUrl(scheme)
  }

  /** The registry holds nine distinct providers. */
  lemma SchemeRegistrySize()
    ensures |SchemeMap| == 9
  {
    SchemeRegistry();
  }

  /** The always-available ids give the same answer whatever the operating system says. */
  lemma AlwaysAvailableIgnoresOs(packageName: string, os1: Os, os2: Os)
    requires packageName in AlwaysAvailable
    ensures CheckAppInstallation(packageName, os1) == CheckAppInstallation(packageName, os2) == true
  {
  }

  /** Only a registered id can be reported available. */
  lemma AvailableOnlyIfRegistered(packageName: string, os: Os)
    requires CheckAppInstallation(packageName, os)
    ensures packageName in SchemeMap
  {
    SchemeRegistry();
  }

  // ---------------------------------------------------------------------
  // Launching a provider

  /**
   * `launchApp`: a string `URL(string:)` rejects fails with `INVALID_URL`, an
   * unopenable URL with `CANNOT_OPEN`; only an openable URL is opened, and
   * the reply is then what the completion handler reports.
   */
  function LaunchApp(scheme: string, os: Os): (r: Reply)
    ensures r == Error("INVALID_URL") <==> !os.parsesAsUrl(scheme)
    ensures r == Error("CANNOT_OPEN") <==> os.parsesAsUrl(scheme) && !os.canOpenUrl(scheme)
    ensures r.Success? <==> os.parsesAsUrl(scheme) && os.canOpenUrl(scheme)
    ensures r.Success? ==> r.value == os.openSucceeds(scheme)
    ensures !r.NotImplemented?
  {
    if !os.parsesAsUrl(scheme) then Error("INVALID_URL")
    else if os.canOpenUrl(scheme) then Success(os.openSucceeds(scheme))
    else Error("CANNOT_OPEN")
  }

  // ---------------------------------------------------------------------
  // The method-call dispatcher

  /** A value in the call's argument dictionary: a string, or anything else. */
  datatype Value = Str(text: string) | NonString

  /** The call's arguments: a `[String: Any]` dictionary, or anything else. */
  datatype Arguments = Dictionary(entries: map<string, Value>) | NotDictionary

  /** A call from the application layer. */
  datatype MethodCall = MethodCall(name: string, arguments: Arguments)

  /** `args as? [String: Any]` then `args[key] as? String`. */
  function StringArgument(arguments: Arguments, key: string): (r: Option<string>)
    ensures r.Some? <==> arguments.Dictionary? && key in arguments.entries && arguments.entries[key].Str?
    ensures r.Some? ==> arguments.entries[key] == Str(r.value)
  {
    match arguments
    case NotDictionary => None
    case Dictionary(entries) =>
      if key in entries && entries[key].Str? then Some(entries[key].text) else None
  }

  /**
   * The `setMethodCallHandler` switch: a missing or non-string argument is
   * `INVALID_ARGUMENTS`; any other method is not implemented.
   */
  function Dispatch(call: MethodCall, os: Os): (r: Reply)
    ensures call.name == "checkAppInstallation" ==>
      match StringArgument(call.arguments, "packageName")
      case Some(packageName) => r == Success(CheckAppInstallation(packageName, os))
      case None => r == Error("INVALID_ARGUMENTS")
    ensures call.name == "launchApp" ==>
      match StringArgument(call.arguments, "scheme")
      case Some(scheme) => r == LaunchApp(scheme, os)
      case None => r == Error("INVALID_ARGUMENTS")
    ensures r == NotImplemented <==> call.name != "checkAppInstallation" && call.name != "launchApp"
    ensures r == Error("INVALID_ARGUMENTS") <==>
      (call.name == "checkAppInstallation" && StringArgument(call.arguments, "packageName").None?) ||
      (call.name == "launchApp" && StringArgument(call.arguments, "scheme").None?)
  {
    match call.name
    case "checkAppInstallation" =>
      (match StringArgument(call.arguments, "packageName")
       case Some(packageName) => Success(CheckAppInstallation(packageName, os))
       case None => Error("INVALID_ARGUMENTS"))
    case "launchApp" =>
      (match StringArgument(call.arguments, "scheme")
       case Some(scheme) => LaunchApp(scheme, os)
       case None => Error("INVALID_ARGUMENTS"))
    case _ => NotImplemented
  }

  // ---------------------------------------------------------------------
  // The payment callback

  /** A `URLQueryItem`: a name and an optional value. */
  datatype QueryItem = QueryItem(name: string, value: Option<string>)

  /**
   * An incoming URL: its scheme and host, its `absoluteString`, and the
   * query items `URLComponents` yields (absent when it yields none).
   */
  datatype Url = Url(scheme: Option<string>, host: Option<string>, absoluteString: string,
                     queryItems: Option<seq<QueryItem>>)

  /** The pair each item stores: its name, and its value or `""` when it has none. */
  function ItemPairs(items: seq<QueryItem>): (pairs: seq<Pair>)
  {
    seq(|items|, i requires 0 <= i < |items| => (items[i].name, items[i].value.GetOr("")))
  }

  /** The `responseData` dictionary the callback builds from a URL. */
  function QueryParams(url: Url): (params: Params)
  {
    match url.queryItems
    case None => map[]
    case Some(items) => Associate(ItemPairs(items))
  }

  /**
   * The `for item in queryItems` loop: each item stores its value, or `""`,
   * under its name, overwriting an earlier item of the same name.
   */
  method CollectQueryItems(items: seq<QueryItem>) returns (data: Params)
    ensures data == Associate(ItemPairs(items))
    ensures forall k :: k in data <==> exists j :: 0 <= j < |items| && items[j].name == k
  {
    data := map[];
    ghost var pairs := ItemPairs(items);
    for i := 0 to |items|
      invariant data == Associate(pairs[..i])
    {
      data := data[items[i].name := items[i].value.GetOr("")];
      AssociateSnoc(pairs[..i], pairs[i]);
      assert pairs[..i + 1] == pairs[..i] + [pairs[i]];
    }
    assert pairs[..|items|] == pairs;
    forall k | k in data
      ensures exists j :: 0 <= j < |items| && items[j].name == k
    {
      var j :| 0 <= j < |pairs| && pairs[j].0 == k;
      assert items[j].name == k;
    }
    forall k | exists j :: 0 <= j < |items| && items[j].name == k
      ensures k in data
    {
      var j :| 0 <= j < |items| && items[j].name == k;
      assert pairs[j].0 == k;
    }
  }

  /** `handlePaymentResponse`: the triple for a callback URL. */
  method HandlePaymentResponse(url: Url) returns (r: Response)
    ensures r == Normalize(QueryParams(url), url.absoluteString)
    ensures r.response == url.absoluteString
  {
    var responseData: Params := map[];
    if url.queryItems.Some? {
      responseData := CollectQueryItems(url.queryItems.value);
    }
    r := Normalize(responseData, url.absoluteString);
  }

  /** A URL without query items gives `("FAILURE", "", url)`. */
  lemma NoQueryItemsResponse(url: Url)
    requires url.queryItems == None || url.queryItems == Some([])
    ensures Normalize(QueryParams(url), url.absoluteString) == Response("FAILURE", "", url.absoluteString)
  {
  }

  /** The last item of a name decides its entry; a nil value is stored as `""`. */
  lemma {:induction false} ItemLastWins(items: seq<QueryItem>, i: nat)
    requires i < |items|
    requires forall j :: i < j < |items| ==> items[j].name != items[i].name
    ensures items[i].name in Associate(ItemPairs(items))
    ensures Associate(ItemPairs(items))[items[i].name] == if items[i].value.Some? then items[i].value.value else ""
  {
    AssociateLastWins(ItemPairs(items), i);
  }

  /** No item named `Status` or `status`: the status is `"FAILURE"`; none named `txnId` or `ApprovalRefNo`: the id is `""`. */
  lemma ItemDefaults(url: Url)
    requires url.queryItems.Some?
    ensures (forall j :: 0 <= j < |url.queryItems.value| ==>
               url.queryItems.value[j].name != "Status" && url.queryItems.value[j].name != "status") ==>
            Normalize(QueryParams(url), url.absoluteString).status == "FAILURE"
    ensures (forall j :: 0 <= j < |url.queryItems.value| ==>
               url.queryItems.value[j].name != "txnId" && url.queryItems.value[j].name != "ApprovalRefNo") ==>
            Normalize(QueryParams(url), url.absoluteString).txnId == ""
  {
    var pairs := ItemPairs(url.queryItems.value);
    assert forall j :: 0 <= j < |pairs| ==> pairs[j].0 == url.queryItems.value[j].name;
  }

  // ---------------------------------------------------------------------
  // Routing of incoming URLs

  /** The guard of `application(_:open:options:)`: scheme `upipaymentapp` and host `upi`. */
  predicate IsPaymentCallback(url: Url): (isCallback: bool)
    ensures isCallback <==>
      url.scheme.Some? && url.scheme.value == "upipaymentapp" && url.host.Some? && url.host.value == "upi"
  {
    url.scheme == Some("upipaymentapp") && url.host == Some("upi")
  }

  /**
   * `application(_:open:options:)`: a payment callback is handled here (the
   * answer is `true` and its triple is sent); any other URL is left to the
   * superclass, whose answer is `superHandles`.
   */
  method OpenUrl(url: Url, superHandles: bool) returns (handled: bool, sent: Option<Response>)
    ensures sent.Some? <==> IsPaymentCallback(url)
    ensures IsPaymentCallback(url) ==> handled && sent == Some(Normalize(QueryParams(url), url.absoluteString))
    ensures !IsPaymentCallback(url) ==> handled == superHandles
  {
    if url.scheme == Some("upipaymentapp") && url.host == Some("upi") {
      var response := HandlePaymentResponse(url);
      return true, Some(response);
    }
    return superHandles, None;
  }
}
