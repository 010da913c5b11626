/** Records, wallets, sessions and buckets: the values every layer of the SDK passes around. */
module AuthTypes {
  import opened Wrappers
  import opened Strings

  datatype Chain = Solana | Evm
  datatype WalletRole = Funds | Signing
  datatype Slot = Slot(chain: Chain, role: WalletRole)
  datatype AuthMethod = EmailAuth | WalletAuth | BiometricAuth
  datatype OffchainEnvelope = Legacy | V0

  datatype EncryptedWallet = EncryptedWallet(
    chain: Chain, role: WalletRole, publicKey: string, encryptedSecret: string)
  {
    function At(): Slot {
      Slot(chain, role)
    }
  }

  /** A user record without its wallets and its session pointer. */
  datatype Profile = Profile(
    appId: string, publicKey: string, email: Option<string>, authPublicKey: Option<string>,
    authMethod: AuthMethod, createdAt: int, pbkdf2Iterations: Option<int>,
    offchainEnvelope: Option<OffchainEnvelope>)

  datatype UserData = UserData(
    profile: Profile, wallets: seq<EncryptedWallet>, authTokenHash: Option<string>)

  datatype SessionValue = SessionValue(publicKey: string, fingerprint: Option<string>)
  datatype RateLimitBucket = RateLimitBucket(endpoint: string, appId: Option<string>, identifier: string)
  datatype RateLimitResult = RateLimitResult(allowed: bool, remaining: int)

  datatype AuthError = EmailTaken | ParseFailed

  function NormalizeEmail(email: string): string {
    Trim(ToLower(email))
  }

  /** A normal form: normalizing again, or changing case or surrounding blanks first, changes nothing. */
  lemma NormalizeStable(email: string)
    ensures NormalizeEmail(NormalizeEmail(email)) == NormalizeEmail(email)
    ensures NormalizeEmail(ToLower(email)) == NormalizeEmail(email)
    ensures NormalizeEmail(Trim(email)) == NormalizeEmail(email)
  {
    ToLowerIdempotent(email);
    ToLowerIdempotent(Trim(email));
    TrimStartLower(email);
    TrimEndLower(TrimStart(email));
    assert ToLower(Trim(email)) == Trim(ToLower(email));
    TrimIdempotent(ToLower(email));
  }

  /** JavaScript truthiness of an optional string: absent and empty both fail an `if`. */
  predicate Truthy(s: Option<string>) {
    s.Some? && s.value != ""
  }

  const WALLET_SLOTS: seq<Slot> :=
    [Slot(Solana, Funds), Slot(Solana, Signing), Slot(Evm, Funds), Slot(Evm, Signing)]

  function Rank(s: Slot): (r: nat)
    ensures r < |WALLET_SLOTS| && WALLET_SLOTS[r] == s
  {
    match s
    case Slot(Solana, Funds) => 0
    case Slot(Solana, Signing) => 1
    case Slot(Evm, Funds) => 2
    case Slot(Evm, Signing) => 3
  }

  /** Place `w` behind every wallet of its rank or lower: the step of a stable sort. */
  function InsertBySlot(w: EncryptedWallet, ws: seq<EncryptedWallet>): seq<EncryptedWallet> {
    if ws == [] then [w]
    else if Rank(w.At()) < Rank(ws[|ws| - 1].At()) then
      InsertBySlot(w, ws[..|ws| - 1]) + [ws[|ws| - 1]]
    else ws + [w]
  }

  function SortWalletsBySlot(ws: seq<EncryptedWallet>): seq<EncryptedWallet> {
    if ws == [] then [] else InsertBySlot(ws[|ws| - 1], SortWalletsBySlot(ws[..|ws| - 1]))
  }

  /** One wallet per slot, strictly ordered by slot. */
  predicate InSlotOrder(ws: seq<EncryptedWallet>) {
    forall i, j :: 0 <= i < j < |ws| ==> Rank(ws[i].At()) < Rank(ws[j].At())
  }

  predicate DistinctSlots(ws: seq<EncryptedWallet>) {
    forall i, j :: 0 <= i < j < |ws| ==> ws[i].At() != ws[j].At()
  }

  lemma {:induction false} InsertKeepsOrder(w: EncryptedWallet, ws: seq<EncryptedWallet>)
    requires InSlotOrder(ws)
    requires forall i :: 0 <= i < |ws| ==> ws[i].At() != w.At()
    ensures InSlotOrder(InsertBySlot(w, ws))
    ensures forall v :: v in InsertBySlot(w, ws) <==> v == w || v in ws
  {
    if ws != [] {
      var last := ws[|ws| - 1];
      assert forall v :: v in ws <==> v == last || v in ws[..|ws| - 1];
      if Rank(w.At()) < Rank(last.At()) {
        var front := ws[..|ws| - 1];
        InsertKeepsOrder(w, front);
        var rest := InsertBySlot(w, front);
        forall i | 0 <= i < |rest| ensures Rank(rest[i].At()) < Rank(last.At()) {
          assert rest[i] in rest;
        }
      } else {
        assert Rank(w.At()) != Rank(last.At());
      }
    }
  }

  /** Sorting loses and invents nothing, and distinct slots come out in the fixed slot order. */
  lemma {:induction false} SortOrders(ws: seq<EncryptedWallet>)
    requires DistinctSlots(ws)
    ensures InSlotOrder(SortWalletsBySlot(ws))
    ensures forall v :: v in SortWalletsBySlot(ws) <==> v in ws
  {
    if ws != [] {
      var front, last := ws[..|ws| - 1], ws[|ws| - 1];
      assert forall v :: v in ws <==> v == last || v in front;
      SortOrders(front);
      var sorted := SortWalletsBySlot(front);
      forall i | 0 <= i < |sorted| ensures sorted[i].At() != last.At() {
        assert sorted[i] in sorted;
      }
      InsertKeepsOrder(last, sorted);
    }
  }

  /** Slot order leaves no choice: the same wallets can be listed one way only. */
  lemma {:induction false} SlotOrderUnique(a: seq<EncryptedWallet>, b: seq<EncryptedWallet>)
    requires InSlotOrder(a) && InSlotOrder(b)
    requires forall v :: v in a <==> v in b
    ensures a == b
  {
    assert a != [] ==> a[0] in b;
    assert b != [] ==> b[0] in a;
    if a != [] {
      assert a[0] == b[0];
      forall v ensures v in a[1..] <==> v in b[1..] {
        if v in a[1..] { assert v in a && v in b; }
        if v in b[1..] { assert v in b && v in a; }
      }
      SlotOrderUnique(a[1..], b[1..]);
    }
  }

  /**
   * The order in which a backend hands the wallets back never shows: any two listings of the
   * same one-per-slot wallets sort to the same array.
   */
  lemma SortIgnoresInputOrder(a: seq<EncryptedWallet>, b: seq<EncryptedWallet>)
    requires DistinctSlots(a) && DistinctSlots(b)
    requires forall v :: v in a <==> v in b
    ensures SortWalletsBySlot(a) == SortWalletsBySlot(b)
  {
    SortOrders(a);
    SortOrders(b);
    SlotOrderUnique(SortWalletsBySlot(a), SortWalletsBySlot(b));
  }

  /** The slot-indexed view of a record's wallets, each filed under its own slot. */
  type Slots = map<Slot, EncryptedWallet>

  ghost predicate Filed(slots: Slots) {
    forall s :: s in slots ==> slots[s].At() == s
  }

  function OneSlot(slots: Slots, s: Slot): seq<EncryptedWallet> {
    if s in slots then [slots[s]] else []
  }

  /** The wallets of a record in the fixed slot order, from the `i`-th slot on. */
  function WalletsFrom(slots: Slots, i: nat): seq<EncryptedWallet>
    requires i <= |WALLET_SLOTS|
    decreases |WALLET_SLOTS| - i
  {
    if i == |WALLET_SLOTS| then [] else OneSlot(slots, WALLET_SLOTS[i]) + WalletsFrom(slots, i + 1)
  }

  function WalletsInOrder(slots: Slots): seq<EncryptedWallet> {
    WalletsFrom(slots, 0)
  }

  lemma RankOfSlot(i: nat)
    requires i < |WALLET_SLOTS|
    ensures Rank(WALLET_SLOTS[i]) == i
  {
  }

  lemma {:induction false} WalletsFromSorted(slots: Slots, i: nat)
    requires Filed(slots) && i <= |WALLET_SLOTS|
    ensures InSlotOrder(WalletsFrom(slots, i))
    ensures forall v :: v in WalletsFrom(slots, i) <==> Rank(v.At()) >= i && v.At() in slots && slots[v.At()] == v
    ensures |WalletsFrom(slots, i)| <= |WALLET_SLOTS| - i
    decreases |WALLET_SLOTS| - i
  {
    if i < |WALLET_SLOTS| {
      var slot := WALLET_SLOTS[i];
      var head, rest := OneSlot(slots, slot), WalletsFrom(slots, i + 1);
      RankOfSlot(i);
      WalletsFromSorted(slots, i + 1);
      forall k | 0 <= k < |rest| ensures Rank(rest[k].At()) > i { assert rest[k] in rest; }
      forall v ensures v in head + rest <==> Rank(v.At()) >= i && v.At() in slots && slots[v.At()] == v {
        assert v in head + rest <==> v in head || v in rest;
        assert Rank(v.At()) == i ==> v.At() == slot;
      }
    }
  }

  /** Any listing of a record's wallets sorts to the fixed slot order. */
  lemma SortedListing(ws: seq<EncryptedWallet>, slots: Slots)
    requires Filed(slots) && DistinctSlots(ws)
    requires forall v :: v in ws <==> v.At() in slots && slots[v.At()] == v
    ensures SortWalletsBySlot(ws) == WalletsInOrder(slots)
  {
    SortOrders(ws);
    WalletsFromSorted(slots, 0);
    SlotOrderUnique(SortWalletsBySlot(ws), WalletsInOrder(slots));
  }
}
