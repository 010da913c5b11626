/** The gate in front of every wallet write: a payload names each slot at most once, within bounds. */
module WalletPayload {
  import opened Wrappers
  import opened AuthTypes

  datatype Json =
    | JNull
    | JBool(b: bool)
    | JNumber(n: real)
    | JString(s: string)
    | JArray(items: seq<Json>)
    | JObject(fields: map<string, Json>)

  const MAX_PUBLIC_KEY := 128
  const MAX_SECRET := 8192

  datatype PayloadError =
    | NotAnArray | TooManyWallets | InvalidEntry | PublicKeyTooLong | SecretTooLarge | DuplicateSlot

  /** The length of a JavaScript string, in UTF-16 code units: two for a character beyond the first plane. */
  function Units(s: string): nat {
    if s == "" then 0 else Units(s[..|s| - 1]) + if s[|s| - 1] as int > 0xffff then 2 else 1
  }

  /** A property read: anything but an object has none, and a missing one is no string. */
  function Get(j: Json, name: string): Json {
    if j.JObject? && name in j.fields then j.fields[name] else JNull
  }

  function RoleOf(j: Json): Option<WalletRole> {
    if j == JString("funds") then Some(Funds) else if j == JString("signing") then Some(Signing) else None
  }

  function ChainOf(j: Json): Option<Chain> {
    if j == JString("solana") then Some(Solana) else if j == JString("evm") then Some(Evm) else None
  }

  /** One entry: the error of the first check it fails, or the four fields it is rebuilt from. */
  function Entry(w: Json): Result<EncryptedWallet, PayloadError> {
    var pk, secret := Get(w, "publicKey"), Get(w, "encryptedSecret");
    if !pk.JString? || !secret.JString? then Failure(InvalidEntry)
    else if Units(pk.s) > MAX_PUBLIC_KEY then Failure(PublicKeyTooLong)
    else if RoleOf(Get(w, "role")).None? || ChainOf(Get(w, "chain")).None? then Failure(InvalidEntry)
    else if Units(secret.s) > MAX_SECRET then Failure(SecretTooLarge)
    else Success(EncryptedWallet(ChainOf(Get(w, "chain")).value, RoleOf(Get(w, "role")).value, pk.s, secret.s))
  }

  predicate Wellformed(v: Json) {
    && v.JArray?
    && |v.items| <= |WALLET_SLOTS|
    && (forall i :: 0 <= i < |v.items| ==> Entry(v.items[i]).Success?)
    && forall i, j :: 0 <= i < j < |v.items| ==> Entry(v.items[i]).value.At() != Entry(v.items[j]).value.At()
  }

  /**
   * Accepts exactly the well-formed payloads, and hands on nothing but the four known fields of
   * each entry: at most one bounded wallet per slot.
   */
  method ReadWallets(v: Json) returns (r: Result<seq<EncryptedWallet>, PayloadError>)
    ensures r.Success? <==> Wellformed(v)
    ensures r.Success? ==>
              && |r.value| == |v.items| && DistinctSlots(r.value)
              && forall i :: 0 <= i < |r.value| ==>
                   && Entry(v.items[i]) == Success(r.value[i])
                   && Units(r.value[i].publicKey) <= MAX_PUBLIC_KEY
                   && Units(r.value[i].encryptedSecret) <= MAX_SECRET
  {
    if !v.JArray? { return Failure(NotAnArray); }
    if |v.items| > |WALLET_SLOTS| { return Failure(TooManyWallets); }
    var seen: set<Slot> := {};
    var clean: seq<EncryptedWallet> := [];
    var i := 0;
    while i < |v.items|
      invariant 0 <= i <= |v.items| && |clean| == i
      invariant forall k :: 0 <= k < i ==> Entry(v.items[k]) == Success(clean[k])
      invariant forall k :: 0 <= k < i ==> clean[k].At() in seen
      invariant forall s :: s in seen ==> exists k :: 0 <= k < i && clean[k].At() == s
      invariant DistinctSlots(clean)
    {
      var e := Entry(v.items[i]);
      if e.Failure? { return Failure(e.error); }
      if e.value.At() in seen { return Failure(DuplicateSlot); }
      seen := seen + {e.value.At()};
      clean := clean + [e.value];
      assert clean[i].At() == e.value.At();
      i := i + 1;
    }
    r := Success(clean);
  }
}
