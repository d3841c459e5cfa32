/**
 * The Android shim (`MainActivity`): the flat-string callback parser, the
 * URI callback path, the intent routing that chooses between them, and the
 * method-call dispatcher. What would be sent with `invokeMethod` is returned.
 */
module Android {
  import opened Wrappers
  import opened Normalizer
  import opened Bridge

  // ---------------------------------------------------------------------
  // Splitting

  /** The parts joined back with `sep` between consecutive parts. */
  function Join(parts: seq<string>, sep: char): (s: string)
  {
    if |parts| == 0 then ""
    else if |parts| == 1 then parts[0]
    else parts[0] + [sep] + Join(parts[1..], sep)
  }

  /**
   * Kotlin's `split(sep)` with no limit: every occurrence of `sep` cuts, so
   * the empty string gives one empty part and a trailing separator a
   * trailing empty part.
   */
  function Split(s: string, sep: char): (parts: seq<string>)
    ensures |parts| >= 1
    ensures forall i :: 0 <= i < |parts| ==> sep !in parts[i]
  {
    if |s| == 0 then [""]
    else
      var rest := Split(s[1..], sep);
      if s[0] == sep then [""] + rest
      else [[s[0]] + rest[0]] + rest[1..]
  }

  /** Joining the parts gives the input back: splitting loses nothing. */
  lemma {:induction false} JoinSplit(s: string, sep: char)
    ensures Join(Split(s, sep), sep) == s
  {
    if |s| > 0 {
      var rest := Split(s[1..], sep);
      JoinSplit(s[1..], sep);
      if s[0] == sep {
        assert ([""] + rest)[1..] == rest;
      } else {
        var parts := [[s[0]] + rest[0]] + rest[1..];
        if |rest| > 1 {
          assert parts[1..] == rest[1..];
        }
      }
    }
  }

  /** A string without the separator is one part. */
  lemma {:induction false} SplitWithoutSeparator(a: string, sep: char)
    requires sep !in a
    ensures Split(a, sep) == [a]
  {
    if |a| > 0 {
      SplitWithoutSeparator(a[1..], sep);
      assert [a[0]] + a[1..] == a;
    }
  }

  /** A part followed by the separator is cut off as the first part. */
  lemma {:induction false} SplitCons(a: string, sep: char, t: string)
    requires sep !in a
    ensures Split(a + [sep] + t, sep) == [a] + Split(t, sep)
  {
    var s := a + [sep] + t;
    if |a| == 0 {
      assert s[1..] == t;
    } else {
      assert s[1..] == a[1..] + [sep] + t;
      SplitCons(a[1..], sep, t);
      assert [s[0]] + a[1..] == a;
    }
  }

  /** Splitting a join of separator-free parts gives the parts back. */
  lemma {:induction false} SplitJoin(parts: seq<string>, sep: char)
    requires |parts| >= 1
    requires forall i :: 0 <= i < |parts| ==> sep !in parts[i]
    ensures Split(Join(parts, sep), sep) == parts
  {
    if |parts| == 1 {
      SplitWithoutSeparator(parts[0], sep);
    } else {
      SplitJoin(parts[1..], sep);
      SplitCons(parts[0], sep, Join(parts[1..], sep));
      assert [parts[0]] + parts[1..] == parts;
    }
  }

  /**
   * Kotlin's `split(sep, limit = 2)`: cut at the first `sep` only, so the
   * second part keeps every later separator.
   */
  function SplitFirst(s: string, sep: char): (parts: seq<string>)
    ensures |parts| == 1 || |parts| == 2
    ensures |parts| == 1 <==> sep !in s
    ensures |parts| == 1 ==> parts[0] == s
    ensures |parts| == 2 ==> parts[0] + [sep] + parts[1] == s && sep !in parts[0]
  {
    if |s| == 0 then [""]
    else if s[0] == sep then ["", s[1..]]
    else
      var rest := SplitFirst(s[1..], sep);
      assert [s[0]] + s[1..] == s;
      [[s[0]] + rest[0]] + rest[1..]
  }

  /** A shorter cut of the same string puts the separator inside the longer cut's first part. */
  lemma SeparatorAt(a: string, b: string, c: string, d: string, sep: char)
    requires a + [sep] + b == c + [sep] + d
    requires |a| < |c|
    ensures sep in c
  {
    assert c[|a|] == (c + [sep] + d)[|a|] == (a + [sep] + b)[|a|] == sep;
  }

  /** Two cuts at a first separator of the same string are the same cut. */
  lemma FirstCutUnique(a: string, b: string, c: string, d: string, sep: char)
    requires sep !in a && sep !in c
    requires a + [sep] + b == c + [sep] + d
    ensures a == c && b == d
  {
    var s := a + [sep] + b;
    if |a| < |c| {
      SeparatorAt(a, b, c, d, sep);
      assert false;
    } else if |c| < |a| {
      SeparatorAt(c, d, a, b, sep);
      assert false;
    }
    assert a == s[..|a|] == c;
    assert b == s[|a| + 1..] == d;
  }

  // ---------------------------------------------------------------------
  // The flat-string callback

  /**
   * One `&`-segment as a key/value pair: the text before the first `=` and
   * the rest, or the whole segment and `""` when it has no `=`.
   */
  function SegmentToPair(segment: string): (kv: Pair)
    ensures '=' !in segment ==> kv == (segment, "")
    ensures '=' in segment ==> kv.0 + "=" + kv.1 == segment && '=' !in kv.0
  {
    var parts := SplitFirst(segment, '=');
    if |parts| == 2 then (parts[0], parts[1]) else (parts[0], "")
  }

  /** A segment written as `key=value` with `=` absent from the key reads back as that pair. */
  lemma SegmentOfPair(key: string, value: string)
    requires '=' !in key
    ensures SegmentToPair(key + "=" + value) == (key, value)
  {
    var s := key + "=" + value;
    assert s[|key|] == '=';
    var kv := SegmentToPair(s);
    FirstCutUnique(kv.0, kv.1, key, value, '=');
  }

  /** The parameter map of a flat callback string. */
  function ParseParams(response: string): (params: Params)
    ensures forall key :: key in params <==>
      exists seg :: seg in Split(response, '&') && SegmentToPair(seg).0 == key
  {
    var segments := Split(response, '&');
    var pairs := seq(|segments|, i requires 0 <= i < |segments| => SegmentToPair(segments[i]));
    assert forall j :: 0 <= j < |segments| ==> pairs[j].0 == SegmentToPair(segments[j]).0;
    Associate(pairs)
  }

  /**
   * `parseUPIResponseString`: the triple for a flat `key=value&...` string.
   * The response sent on is always the input itself.
   */
  function ParseUpiResponseString(response: string): (r: Response)
    ensures r.response == response
  {
    Normalize(ParseParams(response), response)
  }

  /** When a key repeats, the value of its last segment is the one kept. */
  lemma ParamsLastWins(response: string, i: nat)
    requires i < |Split(response, '&')|
    requires forall j :: i < j < |Split(response, '&')| ==>
      SegmentToPair(Split(response, '&')[j]).0 != SegmentToPair(Split(response, '&')[i]).0
    ensures var kv := SegmentToPair(Split(response, '&')[i]);
      kv.0 in ParseParams(response) && ParseParams(response)[kv.0] == kv.1
  {
    var segments := Split(response, '&');
    var pairs := seq(|segments|, k requires 0 <= k < |segments| => SegmentToPair(segments[k]));
    AssociateLastWins(pairs, i);
  }

  /** No segment keyed `Status` or `status`: the status is `"FAILURE"`. */
  lemma StatusDefaultsToFailure(response: string)
    requires forall seg :: seg in Split(response, '&') ==>
      SegmentToPair(seg).0 != "Status" && SegmentToPair(seg).0 != "status"
    ensures ParseUpiResponseString(response).status == "FAILURE"
  {
  }

  /**
   * The status is the value of the last `Status` segment, or, with no
   * `Status` segment at all, of the last `status` segment.
   */
  lemma StatusFromLastSegment(response: string, i: nat)
    requires i < |Split(response, '&')|
    requires var key := SegmentToPair(Split(response, '&')[i]).0;
      key == "Status" ||
      (key == "status" && forall seg :: seg in Split(response, '&') ==> SegmentToPair(seg).0 != "Status")
    requires forall j :: i < j < |Split(response, '&')| ==>
      SegmentToPair(Split(response, '&')[j]).0 != SegmentToPair(Split(response, '&')[i]).0
    ensures ParseUpiResponseString(response).status == SegmentToPair(Split(response, '&')[i]).1
  {
    ParamsLastWins(response, i);
  }

  /**
   * The transaction id is the value of the last `txnId` segment, or, with no
   * `txnId` segment at all, of the last `ApprovalRefNo` segment.
   */
  lemma TxnIdFromLastSegment(response: string, i: nat)
    requires i < |Split(response, '&')|
    requires var key := SegmentToPair(Split(response, '&')[i]).0;
      key == "txnId" ||
      (key == "ApprovalRefNo" && forall seg :: seg in Split(response, '&') ==> SegmentToPair(seg).0 != "txnId")
    requires forall j :: i < j < |Split(response, '&')| ==>
      SegmentToPair(Split(response, '&')[j]).0 != SegmentToPair(Split(response, '&')[i]).0
    ensures ParseUpiResponseString(response).txnId == SegmentToPair(Split(response, '&')[i]).1
  {
    ParamsLastWins(response, i);
  }

  /** No segment keyed `txnId` or `ApprovalRefNo`: the transaction id is empty. */
  lemma TxnIdDefaultsToEmpty(response: string)
    requires forall seg :: seg in Split(response, '&') ==>
      SegmentToPair(seg).0 != "txnId" && SegmentToPair(seg).0 != "ApprovalRefNo"
    ensures ParseUpiResponseString(response).txnId == ""
  {
  }

  /** The flat string for a list of pairs, `k1=v1&k2=v2&...`. */
  function Encode(pairs: seq<Pair>): (callback: string)
  {
    Join(seq(|pairs|, i requires 0 <= i < |pairs| => pairs[i].0 + "=" + pairs[i].1), '&')
  }

  /** Pairs that survive encoding: keys free of `&` and `=`, values free of `&` (a value may hold `=`). */
  ghost predicate Encodable(pairs: seq<Pair>)
  {
    forall i :: 0 <= i < |pairs| ==>
      '&' !in pairs[i].0 && '=' !in pairs[i].0 && '&' !in pairs[i].1
  }

  /** Parsing an encoded non-empty list of pairs builds the map of those pairs, the last duplicate winning. */
  lemma ParseEncoded(pairs: seq<Pair>)
    requires |pairs| >= 1 && Encodable(pairs)
    ensures ParseParams(Encode(pairs)) == Associate(pairs)
  {
    var segments := seq(|pairs|, i requires 0 <= i < |pairs| => pairs[i].0 + "=" + pairs[i].1);
    forall i | 0 <= i < |segments|
      ensures '&' !in segments[i]
    {
      assert segments[i] == pairs[i].0 + "=" + pairs[i].1;
    }
    SplitJoin(segments, '&');
    var parsed := seq(|segments|, i requires 0 <= i < |segments| => SegmentToPair(segments[i]));
    forall i | 0 <= i < |segments|
      ensures parsed[i] == pairs[i]
    {
      SegmentOfPair(pairs[i].0, pairs[i].1);
    }
    assert parsed == pairs;
  }

  /** A value holding `=` is kept whole: `a=b=c` has key `a` and value `b=c`. */
  lemma ValueKeepsEquals()
    ensures SegmentToPair("a=b=c") == ("a", "b=c")
  {
    SegmentOfPair("a", "b=c");
  }

  /** The empty callback string gives `("FAILURE", "", "")`. */
  lemma EmptyStringResponse()
    ensures ParseUpiResponseString("") == Response("FAILURE", "", "")
  {
    assert ParseParams("") == map["" := ""];
  }

  /** A bare `Status` segment is the key `Status` with an empty value: the status is `""`, not `"FAILURE"`. */
  lemma PresentButEmptyStatus()
    ensures ParseUpiResponseString("Status").status == ""
  {
    SplitWithoutSeparator("Status", '&');
    assert ParseParams("Status") == map["Status" := ""];
  }

  /** A full success callback with an extra field. */
  lemma SuccessScenario()
    ensures ParseUpiResponseString("Status=SUCCESS&txnId=ABC123&extra=junk")
         == Response("SUCCESS", "ABC123", "Status=SUCCESS&txnId=ABC123&extra=junk")
  {
    var pairs := [("Status", "SUCCESS"), ("txnId", "ABC123"), ("extra", "junk")];
    SuccessEncoding(pairs);
    SuccessParams(pairs);
  }

  /** The success callback of `SuccessScenario` is the encoding of its three pairs. */
  lemma SuccessEncoding(pairs: seq<Pair>)
    requires pairs == [("Status", "SUCCESS"), ("txnId", "ABC123"), ("extra", "junk")]
    ensures Encode(pairs) == "Status=SUCCESS&txnId=ABC123&extra=junk"
  {
    var segments := ["Status=SUCCESS", "txnId=ABC123", "extra=junk"];
    var encoded := seq(|pairs|, i requires 0 <= i < |pairs| => pairs[i].0 + "=" + pairs[i].1);
    assert encoded[0] == segments[0];
    assert encoded[1] == segments[1];
    assert encoded[2] == segments[2];
    assert encoded == segments;
    assert Join(segments[2..], '&') == "extra=junk";
    assert Join(segments[1..], '&') == "txnId=ABC123&extra=junk";
  }

  /** The parameter map of the success callback of `SuccessScenario`. */
  lemma SuccessParams(pairs: seq<Pair>)
    requires pairs == [("Status", "SUCCESS"), ("txnId", "ABC123"), ("extra", "junk")]
    ensures ParseParams(Encode(pairs)) == map["Status" := "SUCCESS", "txnId" := "ABC123", "extra" := "junk"]
  {
    ParseEncoded(pairs);
    SuccessMap(pairs);
  }

  /** The map of the three pairs of `SuccessScenario`. */
  lemma SuccessMap(pairs: seq<Pair>)
    requires pairs == [("Status", "SUCCESS"), ("txnId", "ABC123"), ("extra", "junk")]
    ensures Associate(pairs) == map["Status" := "SUCCESS", "txnId" := "ABC123", "extra" := "junk"]
  {
    AssociateSnoc([], pairs[0]);
    AssociateSnoc([pairs[0]], pairs[1]);
    AssociateSnoc([pairs[0], pairs[1]], pairs[2]);
    assert pairs == [pairs[0], pairs[1]] + [pairs[2]];
  }

  /** `Status` takes priority over `status`, whichever comes first in the string. */
  lemma StatusPriority()
    ensures ParseUpiResponseString("status=B&Status=A").status == "A"
  {
    var pairs := [("status", "B"), ("Status", "A")];
    var segments := ["status=B", "Status=A"];
    var encoded := seq(|pairs|, i requires 0 <= i < |pairs| => pairs[i].0 + "=" + pairs[i].1);
    assert encoded[0] == segments[0];
    assert encoded[1] == segments[1];
    assert encoded == segments;
    assert Join(segments[1..], '&') == "Status=A";
    assert Encode(pairs) == "status=B&Status=A";
    ParseEncoded(pairs);
    AssociateLastWins(pairs, 1);
  }

  /** A repeated key keeps its last value. */
  lemma RepeatedKeyLastWins()
    ensures ParseUpiResponseString("txnId=T1&txnId=T2").txnId == "T2"
  {
    var pairs := [("txnId", "T1"), ("txnId", "T2")];
    var segments := ["txnId=T1", "txnId=T2"];
    var encoded := seq(|pairs|, i requires 0 <= i < |pairs| => pairs[i].0 + "=" + pairs[i].1);
    assert encoded[0] == segments[0];
    assert encoded[1] == segments[1];
    assert encoded == segments;
    assert Join(segments[1..], '&') == "txnId=T2";
    assert Encode(pairs) == "txnId=T1&txnId=T2";
    ParseEncoded(pairs);
    AssociateLastWins(pairs, 1);
  }

  // ---------------------------------------------------------------------
  // The URI callback and intent routing

  /**
   * A parsed `android.net.Uri`: its scheme, whether it is hierarchical
   * (`upi://pay?...`) rather than opaque (`upi:pay?...`), what
   * `getQueryParameter` answers for each name present, and its `toString()`.
   */
  datatype Uri = Uri(scheme: Option<string>, hierarchical: bool, queryParameter: Params, text: string)

  /** The parts of an `Intent` the callback handler reads: its data URI and its `response` extra. */
  datatype Intent = Intent(data: Option<Uri>, responseExtra: Option<string>)

  /**
   * `parseUPIResponse`: the triple for a callback URI, or nothing when
   * `getQueryParameter` throws, as it does on an opaque URI; the path has no
   * `try`, so the exception escapes and no triple is sent.
   */
  function ParseUpiResponse(uri: Uri): (r: Option<Response>)
    ensures r.Some? <==> uri.hierarchical
    ensures r.Some? ==> r.value.response == uri.text
    ensures r.Some? && "Status" in uri.queryParameter ==> r.value.status == uri.queryParameter["Status"]
    ensures r.Some? && "Status" !in uri.queryParameter && "status" in uri.queryParameter ==>
      r.value.status == uri.queryParameter["status"]
    ensures r.Some? && "Status" !in uri.queryParameter && "status" !in uri.queryParameter ==> r.value.status == "FAILURE"
    ensures r.Some? && "txnId" in uri.queryParameter ==> r.value.txnId == uri.queryParameter["txnId"]
    ensures r.Some? && "txnId" !in uri.queryParameter && "ApprovalRefNo" in uri.queryParameter ==>
      r.value.txnId == uri.queryParameter["ApprovalRefNo"]
    ensures r.Some? && "txnId" !in uri.queryParameter && "ApprovalRefNo" !in uri.queryParameter ==> r.value.txnId == ""
  {
    if uri.hierarchical then Some(Normalize(uri.queryParameter, uri.text)) else None
  }

  /**
   * The guard `data != null && data.scheme == "upi"`: a missing data URI, or
   * one without a scheme, is never a UPI callback.
   */
  predicate IsUpiUri(data: Option<Uri>): (isUpi: bool)
    ensures isUpi <==> data.Some? && data.value.scheme.Some? && data.value.scheme.value == "upi"
  {
    data.Some? && data.value.scheme == Some("upi")
  }

  /**
   * `handleUPIResponse`: the triple sent for an intent, if any. A data URI
   * with scheme `upi` wins, even when it is opaque and nothing can be sent;
   * otherwise the `response` extra is parsed; with neither nothing is sent.
   */
  function HandleUpiResponse(intent: Option<Intent>): (sent: Option<Response>)
    ensures intent.None? ==> sent.None?
    ensures intent.Some? && IsUpiUri(intent.value.data) ==>
      sent == ParseUpiResponse(intent.value.data.value)
    ensures intent.Some? && !IsUpiUri(intent.value.data) && intent.value.responseExtra.Some? ==>
      sent == Some(ParseUpiResponseString(intent.value.responseExtra.value))
    ensures sent.Some? <==>
      (intent.Some? &&
       (if IsUpiUri(intent.value.data) then intent.value.data.value.hierarchical
        else intent.value.responseExtra.Some?))
  {
    match intent
    case None => None
    case Some(it) =>
      if IsUpiUri(it.data) then ParseUpiResponse(it.data.value)
      else if it.responseExtra.Some? then Some(ParseUpiResponseString(it.responseExtra.value))
      else None
  }

  /** Whatever is sent carries the untouched payload it was parsed from. */
  lemma SentResponseIsRawPayload(intent: Intent)
    ensures var sent := HandleUpiResponse(Some(intent));
      sent.Some? ==>
        (IsUpiUri(intent.data) && sent.value.response == intent.data.value.text) ||
        (!IsUpiUri(intent.data) && intent.responseExtra.Some? && sent.value.response == intent.responseExtra.value)
  {
  }

  // ---------------------------------------------------------------------
  // The method-call dispatcher

  /** A call from the application layer: its method name and its string arguments (an absent key reads as null). */
  datatype MethodCall = MethodCall(name: string, arguments: map<string, string>)

  /**
   * The operating system, as far as the dispatcher consults it: whether
   * `getPackageInfo` finds a package, and whether `startActivity` on the
   * parsed scheme returns without throwing.
   */
  datatype Device = Device(packageInstalled: string -> bool, activityStarts: string -> bool)

  /** The string argument `key`, absent when the call does not carry it. */
  function Argument(call: MethodCall, key: string): (value: Option<string>)
  {
    if key in call.arguments then Some(call.arguments[key]) else None
  }

  /**
   * The `setMethodCallHandler` body: `checkAppInstallation` and `launchApp`
   * need their argument and otherwise fail with `INVALID_ARGUMENT`; any other
   * method is not implemented.
   */
  function Dispatch(call: MethodCall, device: Device): (r: Reply)
    ensures call.name == "checkAppInstallation" ==>
      if "packageName" in call.arguments
      then r == Success(device.packageInstalled(call.arguments["packageName"]))
      else r == Error("INVALID_ARGUMENT")
    ensures call.name == "launchApp" ==>
      if "scheme" in call.arguments
      then r == Success(device.activityStarts(call.arguments["scheme"]))
      else r == Error("INVALID_ARGUMENT")
    ensures r == NotImplemented <==> call.name != "checkAppInstallation" && call.name != "launchApp"
  {
    match call.name
    case "checkAppInstallation" =>
      (match Argument(call, "packageName")
       case Some(packageName) => Success(device.packageInstalled(packageName))
       case None => Error("INVALID_ARGUMENT"))
    case "launchApp" =>
      (match Argument(call, "scheme")
       case Some(scheme) => Success(device.activityStarts(scheme))
       case None => Error("INVALID_ARGUMENT"))
    case _ => NotImplemented
  }

  /** A call missing its argument is answered with an error, never with a boolean. */
  lemma MissingArgumentIsError(call: MethodCall, device: Device)
    requires call.name == "checkAppInstallation" || call.name == "launchApp"
    requires (call.name == "checkAppInstallation" && "packageName" !in call.arguments)
          || (call.name == "launchApp" && "scheme" !in call.arguments)
    ensures Dispatch(call, device).Error? && !Dispatch(call, device).Success?
  {
  }
}
