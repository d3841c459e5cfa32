/**
 * The callback normaliser shared by both platform shims: a parameter map
 * built left to right from key/value pairs, and the fallback lookup that
 * turns it into the `(status, txnId, response)` triple pushed to the
 * application layer as `onPaymentResponse`.
 */
module Normalizer {

  type Params = map<string, string>
  type Pair = (string, string)

  /** The triple sent over the method channel. */
  datatype Response = Response(status: string, txnId: string, response: string)

  /** Keys consulted for the status, in priority order. */
  const StatusKeys: seq<string> := ["Status", "status"]
  /** Keys consulted for the transaction id, in priority order. */
  const TxnIdKeys: seq<string> := ["txnId", "ApprovalRefNo"]

  const DefaultStatus: string := "FAILURE"
  const DefaultTxnId: string := ""

  /**
   * The map built from `pairs` in order, one insertion per pair, so that a
   * later pair overwrites an earlier one with the same key (Kotlin's
   * `associate`, and the Swift loop storing into a dictionary).
   */
  function Associate(pairs: seq<Pair>): (m: Params)
    ensures forall k :: k in m <==> exists j :: 0 <= j < |pairs| && pairs[j].0 == k
  {
    if |pairs| == 0 then map[]
    else
      var last := pairs[|pairs| - 1];
      Associate(pairs[..|pairs| - 1])[last.0 := last.1]
  }

  /** Appending one pair changes exactly the entry for its key. */
  lemma AssociateSnoc(pairs: seq<Pair>, p: Pair)
    ensures Associate(pairs + [p]) == Associate(pairs)[p.0 := p.1]
  {
    assert (pairs + [p])[..|pairs|] == pairs;
  }

  /** The value stored for a key is the one of its last occurrence. */
  lemma {:induction false} AssociateLastWins(pairs: seq<Pair>, i: nat)
    requires i < |pairs|
    requires forall j :: i < j < |pairs| ==> pairs[j].0 != pairs[i].0
    ensures pairs[i].0 in Associate(pairs)
    ensures Associate(pairs)[pairs[i].0] == pairs[i].1
  {
    if i < |pairs| - 1 {
      var prefix := pairs[..|pairs| - 1];
      AssociateLastWins(prefix, i);
    }
  }

  /**
   * The value of the first key of `keys` present in `p`, else `default`: the
   * chain `p[k0] ?: p[k1] ?: ... ?: default`. A key present with an empty
   * value stops the chain, since only absence falls through.
   */
  function Coalesce(p: Params, keys: seq<string>, default: string): (r: string)
    ensures (forall i :: 0 <= i < |keys| ==> keys[i] !in p) ==> r == default
    ensures forall i :: 0 <= i < |keys| && keys[i] in p && (forall j :: 0 <= j < i ==> keys[j] !in p) ==> r == p[keys[i]]
  {
    if |keys| == 0 then default
    else if keys[0] in p then p[keys[0]]
    else Coalesce(p, keys[1..], default)
  }

  /** The canonical triple for a parameter map and the untouched raw payload. */
  function Normalize(p: Params, raw: string): (r: Response)
    ensures "Status" in p ==> r.status == p["Status"]
    ensures "Status" !in p && "status" in p ==> r.status == p["status"]
    ensures "Status" !in p && "status" !in p ==> r.status == "FAILURE"
    ensures "txnId" in p ==> r.txnId == p["txnId"]
    ensures "txnId" !in p && "ApprovalRefNo" in p ==> r.txnId == p["ApprovalRefNo"]
    ensures "txnId" !in p && "ApprovalRefNo" !in p ==> r.txnId == ""
    ensures r.response == raw
  {
    assert StatusKeys[0] == "Status" && StatusKeys[1] == "status";
    assert TxnIdKeys[0] == "txnId" && TxnIdKeys[1] == "ApprovalRefNo";
    Response(Coalesce(p, StatusKeys, DefaultStatus), Coalesce(p, TxnIdKeys, DefaultTxnId), raw)
  }

  /** Only the four looked-up keys matter: any other parameter is ignored. */
  lemma NormalizeOnlyReadsLookupKeys(p: Params, q: Params, raw: string)
    requires forall k :: k in StatusKeys + TxnIdKeys ==> (k in p <==> k in q) && (k in p ==> p[k] == q[k])
    ensures Normalize(p, raw) == Normalize(q, raw)
  {
    assert forall k :: k in StatusKeys ==> k in StatusKeys + TxnIdKeys;
    assert forall k :: k in TxnIdKeys ==> k in StatusKeys + TxnIdKeys;
  }
}
