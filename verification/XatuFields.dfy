/** What the Xatu handlers take out of requests and responses. */
module XatuFields {
  import opened Options
  import opened HexPreview

  /** A decoded JSON value. Go's nil and JSON's null are the same. */
  datatype Json =
    | Null
    | Bool(truth: bool)
    | Number(number: real)
    | Str(text: string)
    | Array(elements: seq<Json>)
    | Object(members: map<string, Json>)

  function TextAt(members: map<string, Json>, key: string): string {
    if key in members && members[key].Str? then members[key].text else ""
  }

  predicate HasPrefix(s: string, prefix: string) {
    prefix <= s
  }

  function TrimPrefix(s: string, prefix: string): string {
    if HasPrefix(s, prefix) then s[|prefix|..] else s
  }

  // ----- Quantities: hexadecimal text as 64-bit numbers.

  const TWO64: nat := 0x1_0000_0000_0000_0000

  predicate IsHex(s: string) {
    forall c <- s :: IsHexChar(c)
  }

  function HexNumber(s: string): nat
    requires IsHex(s)
  {
    if s == [] then 0 else 16 * HexNumber(s[..|s| - 1]) + DigitValue(s[|s| - 1]).value
  }

  /** `hexToUint64`: text that is not a 64-bit number is 0. */
  function HexToUint64(s: string): nat {
    var t := TrimPrefix(TrimPrefix(s, LOWER), UPPER);
    if t != [] && IsHex(t) && HexNumber(t) < TWO64 then HexNumber(t) else 0
  }

  /** The shortest text of a number, as clients encode it. */
  function HexText(n: nat): (s: string)
    ensures s != []
  {
    if n < 16 then [HexDigit(n)] else HexText(n / 16) + [HexDigit(n % 16)]
  }

  lemma {:induction false} HexTextNumber(n: nat)
    ensures IsHex(HexText(n)) && HexNumber(HexText(n)) == n
  {
    var s := HexText(n);
    if n >= 16 {
      HexTextNumber(n / 16);
      assert s[..|s| - 1] == HexText(n / 16);
    } else {
      assert s[..0] == [];
    }
  }

  const LOWER: string := ['0', 'x']
  const UPPER: string := ['0', 'X']

  lemma TrimPrefixed(prefix: string, s: string)
    ensures TrimPrefix(prefix + s, prefix) == s
  {
  }

  lemma UpperIsNotLower(s: string)
    ensures TrimPrefix(UPPER + s, LOWER) == UPPER + s
  {
    assert (UPPER + s)[1] == 'X' && LOWER[1] == 'x';
  }

  lemma DigitsHaveNoPrefix(s: string)
    requires IsHex(s)
    ensures TrimPrefix(s, LOWER) == s && TrimPrefix(s, UPPER) == s
  {
    assert |s| > 1 ==> IsHexChar(s[1]);
  }

  /** Every 64-bit quantity is read back, with either prefix, without one or with both; larger ones become 0. */
  lemma QuantityRoundTrip(n: nat)
    ensures var value := if n < TWO64 then n else 0;
      && HexToUint64(HexText(n)) == value
      && HexToUint64(LOWER + HexText(n)) == value
      && HexToUint64(UPPER + HexText(n)) == value
      && HexToUint64(LOWER + (UPPER + HexText(n))) == value
  {
    var t := HexText(n);
    HexTextNumber(n);
    DigitsHaveNoPrefix(t);
    TrimPrefixed(LOWER, t);
    TrimPrefixed(UPPER, t);
    UpperIsNotLower(t);
    TrimPrefixed(LOWER, UPPER + t);
  }

  /** A quantity as clients send it. */
  lemma QuantityReadBack(n: nat)
    requires n < TWO64
    ensures HexToUint64(LOWER + HexText(n)) == n
  {
    QuantityRoundTrip(n);
  }

  // ----- Requests.

  const TWO32: nat := 0x1_0000_0000

  /** What a handler keeps of a request until its response comes. */
  datatype Fields =
    | BlobFields(version: string, hashes: seq<string>)
    | PayloadFields(version: string, blockNumber: nat, blockHash: string, parentHash: string,
                    gasUsed: nat, gasLimit: nat, txCount: nat, blobCount: nat)

  function MethodVersion(name: string, prefix: string): string {
    if HasPrefix(name, prefix) then name[|prefix|..] else ""
  }

  /** The texts among the elements, in order. */
  function Texts(list: seq<Json>): seq<string> {
    if list == [] then []
    else Texts(list[..|list| - 1]) + if list[|list| - 1].Str? then [list[|list| - 1].text] else []
  }

  function BlobRequest(version: string, params: seq<Json>): Fields {
    BlobFields(version, if params != [] && params[0].Array? then Texts(params[0].elements) else [])
  }

  function LengthAt(members: map<string, Json>, key: string): nat {
    if key in members && members[key].Array? then |members[key].elements| % TWO32 else 0
  }

  /** `extractPayloadData`: without an object as first parameter nothing else is looked at. */
  function PayloadRequest(version: string, params: seq<Json>): Fields {
    if params == [] || !params[0].Object? then PayloadFields(version, 0, "", "", 0, 0, 0, 0)
    else
      var m := params[0].members;
      PayloadFields(
        version, HexToUint64(TextAt(m, "blockNumber")), TextAt(m, "blockHash"), TextAt(m, "parentHash"),
        HexToUint64(TextAt(m, "gasUsed")), HexToUint64(TextAt(m, "gasLimit")), LengthAt(m, "transactions"),
        if |params| > 1 && params[1].Array? then |params[1].elements| % TWO32 else 0)
  }

  /** The version is what follows the prefix. */
  lemma VersionFollowsPrefix(prefix: string, version: string)
    ensures MethodVersion(prefix + version, prefix) == version
  {
    assert (prefix + version)[|prefix|..] == version;
  }

  function TextValues(texts: seq<string>): seq<Json> {
    seq(|texts|, i requires 0 <= i < |texts| => Str(texts[i]))
  }

  lemma {:induction false} TextsOfTextValues(texts: seq<string>)
    ensures Texts(TextValues(texts)) == texts
  {
    if texts != [] {
      var rest := texts[..|texts| - 1];
      assert TextValues(texts)[..|texts| - 1] == TextValues(rest);
      TextsOfTextValues(rest);
      assert texts == rest + [texts[|texts| - 1]];
    }
  }

  /** A request for blobs by their hashes is read back. */
  lemma BlobRequestRoundTrip(version: string, hashes: seq<string>, more: seq<Json>)
    ensures BlobRequest(version, [Array(TextValues(hashes))] + more) == BlobFields(version, hashes)
  {
    TextsOfTextValues(hashes);
  }

  /** Members under six keys of different lengths. */
  function SixMembers(a: string, x: Json, b: string, y: Json, c: string, z: Json,
                      d: string, u: Json, e: string, v: Json, f: string, w: Json): map<string, Json>
  {
    map[a := x, b := y, c := z, d := u, e := v, f := w]
  }

  lemma SixMembersAt(a: string, x: Json, b: string, y: Json, c: string, z: Json,
                     d: string, u: Json, e: string, v: Json, f: string, w: Json)
    requires |a| < |b| < |c| < |d| < |e| < |f|
    ensures var m := SixMembers(a, x, b, y, c, z, d, u, e, v, f, w);
      && {a, b, c, d, e, f} == m.Keys
      && m[a] == x && m[b] == y && m[c] == z && m[d] == u && m[e] == v && m[f] == w
  {
  }

  /** What a client sends for these fields; transactions are only counted. */
  function PayloadMembers(f: Fields, transactions: seq<Json>): map<string, Json>
    requires f.PayloadFields?
  {
    SixMembers(
      "gasUsed", Str(LOWER + HexText(f.gasUsed)),
      "gasLimit", Str(LOWER + HexText(f.gasLimit)),
      "blockHash", Str(f.blockHash),
      "parentHash", Str(f.parentHash),
      "blockNumber", Str(LOWER + HexText(f.blockNumber)),
      "transactions", Array(transactions))
  }

  /** The members say what `f` says. */
  predicate Tells(m: map<string, Json>, f: Fields)
    requires f.PayloadFields?
  {
    && TextAt(m, "gasUsed") == LOWER + HexText(f.gasUsed)
    && TextAt(m, "gasLimit") == LOWER + HexText(f.gasLimit)
    && TextAt(m, "blockHash") == f.blockHash
    && TextAt(m, "parentHash") == f.parentHash
    && TextAt(m, "blockNumber") == LOWER + HexText(f.blockNumber)
    && LengthAt(m, "transactions") == f.txCount
  }

  lemma PayloadMembersTell(f: Fields, transactions: seq<Json>)
    requires f.PayloadFields? && f.txCount == |transactions| < TWO32
    ensures Tells(PayloadMembers(f, transactions), f)
    ensures {"gasUsed", "gasLimit", "blockHash", "parentHash", "blockNumber", "transactions"} ==
            PayloadMembers(f, transactions).Keys
  {
    SixMembersAt(
      "gasUsed", Str(LOWER + HexText(f.gasUsed)),
      "gasLimit", Str(LOWER + HexText(f.gasLimit)),
      "blockHash", Str(f.blockHash),
      "parentHash", Str(f.parentHash),
      "blockNumber", Str(LOWER + HexText(f.blockNumber)),
      "transactions", Array(transactions));
  }

  /** Other members do not matter. */
  lemma StillTells(m: map<string, Json>, others: map<string, Json>, f: Fields)
    requires f.PayloadFields? && Tells(m, f)
    requires {"gasUsed", "gasLimit", "blockHash", "parentHash", "blockNumber", "transactions"} == m.Keys
    ensures Tells(others + m, f)
  {
  }

  /** How many blobs the parameters after the payload announce: V1 and V2 requests have none, V3 and V4 a list. */
  function BlobsAnnounced(more: seq<Json>): nat {
    if more != [] && more[0].Array? then |more[0].elements| % TWO32 else 0
  }

  lemma PayloadRead(m: map<string, Json>, f: Fields, more: seq<Json>)
    requires f.PayloadFields? && f.blockNumber < TWO64 && f.gasUsed < TWO64 && f.gasLimit < TWO64
    requires Tells(m, f) && f.blobCount == BlobsAnnounced(more)
    ensures PayloadRequest(f.version, [Object(m)] + more) == f
  {
    QuantityReadBack(f.blockNumber);
    QuantityReadBack(f.gasUsed);
    QuantityReadBack(f.gasLimit);
    assert |more| > 0 ==> ([Object(m)] + more)[1] == more[0];
  }

  /** A payload request is read back field by field, whatever other members and parameters it has. */
  lemma PayloadRequestRoundTrip(f: Fields, transactions: seq<Json>, others: map<string, Json>, more: seq<Json>)
    requires f.PayloadFields? && f.blockNumber < TWO64 && f.gasUsed < TWO64 && f.gasLimit < TWO64
    requires f.txCount == |transactions| < TWO32 && f.blobCount == BlobsAnnounced(more)
    ensures PayloadRequest(f.version, [Object(others + PayloadMembers(f, transactions))] + more) == f
  {
    var m := PayloadMembers(f, transactions);
    PayloadMembersTell(f, transactions);
    StillTells(m, others, f);
    PayloadRead(others + m, f, more);
  }

  method ExtractVersionedHashes(params: seq<Json>) returns (hashes: seq<string>)
    ensures params == [] || !params[0].Array? ==> hashes == []
    ensures params != [] && params[0].Array? ==> hashes == Texts(params[0].elements)
  {
    hashes := [];
    if params == [] || !params[0].Array? {
      return;
    }
    var list := params[0].elements;
    for i := 0 to |list|
      invariant hashes == Texts(list[..i])
    {
      assert list[..i + 1][..i] == list[..i];
      if list[i].Str? {
        hashes := hashes + [list[i].text];
      }
    }
    assert list[..|list|] == list;
  }

  // ----- engine_getBlobs responses.

  datatype Status = Empty | Partial | Success | Unsupported | Error

  datatype BlobAnswer = BlobAnswer(count: nat, indexes: seq<nat>, status: Status, message: string)

  /** The places in the first `n` elements that are not null, in order. */
  function Present(list: seq<Json>, n: nat): seq<nat>
    requires n <= |list|
  {
    if n == 0 then [] else Present(list, n - 1) + if list[n - 1] != Null then [n - 1] else []
  }

  function Wrapped(indexes: seq<nat>): seq<nat> {
    seq(|indexes|, i requires 0 <= i < |indexes| => indexes[i] % TWO32)
  }

  lemma CountsUp(n: nat)
    ensures (n % TWO32 + 1) % TWO32 == (n + 1) % TWO32
  {
  }

  lemma WrappedPush(indexes: seq<nat>, i: nat)
    ensures Wrapped(indexes + [i]) == Wrapped(indexes) + [i % TWO32]
  {
  }

  /** `extractGetBlobsResponseData`, with the counts as 32-bit numbers. */
  method ExtractBlobs(error: Option<string>, result: Json) returns (r: BlobAnswer)
    ensures error.Some? ==> r == BlobAnswer(0, [], Error, error.value)
    ensures error == None && !result.Array? ==> r == BlobAnswer(0, [], Unsupported, "")
    ensures error == None && result.Array? ==>
              r == AnswerTo(result.elements)
  {
    if error.Some? {
      return BlobAnswer(0, [], Error, error.value);
    }
    if !result.Array? {
      return BlobAnswer(0, [], Unsupported, "");
    }
    var list := result.elements;
    var count: nat := 0;
    var indexes: seq<nat> := [];
    for i := 0 to |list|
      invariant count == |Present(list, i)| % TWO32
      invariant indexes == Wrapped(Present(list, i))
    {
      if list[i] != Null {
        CountsUp(|Present(list, i)|);
        WrappedPush(Present(list, i), i);
        count := (count + 1) % TWO32;
        indexes := indexes + [i % TWO32];
      }
    }
    var length := |list| % TWO32;
    var status := if count == 0 then Empty else if count < length then Partial else Success;
    r := BlobAnswer(count, indexes, status, "");
  }

  /** The status reported for `present` blobs out of `all`. */
  function StatusOf(present: nat, all: nat): Status {
    var count, length := present % TWO32, all % TWO32;
    if count == 0 then Empty else if count < length then Partial else Success
  }

  /** What the loop answers for a list. */
  function AnswerTo(list: seq<Json>): BlobAnswer {
    var p := Present(list, |list|);
    BlobAnswer(|p| % TWO32, Wrapped(p), StatusOf(|p|, |list|), "")
  }

  /** What the status is meant to say. */
  ghost function TrueStatus(list: seq<Json>): Status {
    if forall i :: 0 <= i < |list| ==> list[i] == Null then Empty else if Null in list then Partial else Success
  }

  lemma {:induction false} PresentIndexes(list: seq<Json>, n: nat)
    requires n <= |list|
    ensures forall i :: i in Present(list, n) <==> 0 <= i < n && list[i] != Null
    ensures forall j, k :: 0 <= j < k < |Present(list, n)| ==> Present(list, n)[j] < Present(list, n)[k]
    ensures |Present(list, n)| <= n
  {
    if n > 0 {
      PresentIndexes(list, n - 1);
      var before := Present(list, n - 1);
      assert forall k :: 0 <= k < |before| ==> before[k] in before;
    }
  }

  /** None is present exactly if all are null, and all are present exactly if none is null. */
  lemma {:induction false} PresentCount(list: seq<Json>, n: nat)
    requires n <= |list|
    ensures |Present(list, n)| <= n
    ensures |Present(list, n)| == 0 <==> forall i :: 0 <= i < n ==> list[i] == Null
    ensures |Present(list, n)| == n <==> forall i :: 0 <= i < n ==> list[i] != Null
  {
    if n > 0 { PresentCount(list, n - 1); }
  }

  /** Up to 2^32 - 1 elements everything is exact: the indexes are those of the blobs, and the status is right. */
  lemma BlobsExact(list: seq<Json>)
    requires |list| < TWO32
    ensures AnswerTo(list) == BlobAnswer(|Present(list, |list|)|, Present(list, |list|), TrueStatus(list), "")
  {
    StatusRightIff(list);
    PresentIndexes(list, |list|);
    var p := Present(list, |list|);
    assert forall k :: 0 <= k < |p| ==> p[k] in p;
    SmallWrapped(p);
  }

  lemma SmallWrapped(p: seq<nat>)
    requires forall k :: 0 <= k < |p| ==> p[k] < TWO32
    ensures Wrapped(p) == p
  {
  }

  /** For longer lists the status can be wrong, and this is when. */
  lemma StatusRightIff(list: seq<Json>)
    ensures var present, all := |Present(list, |list|)|, |list|;
      AnswerTo(list).status == TrueStatus(list) <==>
      present == 0 || (present % TWO32 != 0 && (present == all || present % TWO32 < all % TWO32))
  {
    PresentCount(list, |list|);
    assert Null in list <==> exists i :: 0 <= i < |list| && list[i] == Null;
  }

  /** 2^32 blobs, none missing, are reported as none. */
  lemma StatusWrapsAround()
    ensures var list: seq<Json> := seq(TWO32, _ => Number(0.0));
      && |Present(list, |list|)| == TWO32 && TrueStatus(list) == Success
      && AnswerTo(list).count == 0 && AnswerTo(list).status == Empty
  {
    var list: seq<Json> := seq(TWO32, _ => Number(0.0));
    PresentCount(list, |list|);
    assert list[0] != Null;
  }
}
