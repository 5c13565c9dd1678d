/**
 The `RealEstateContract` of lib.rs as a deterministic state machine.

 The storage struct becomes the immutable record `Contract`; each ink!
 message becomes a pure function of (storage, caller, arguments) returning
 the new storage together with the message's return value. The caller,
 which the contract reads from `Self::env().caller()`, is an explicit
 parameter. Every ink! `Mapping` is a Dafny `map` read with default-on-miss.
 */
module RealEstate {
  import opened Types

  /** The contract's storage. */
  datatype Contract = Contract(
    governance: AccountId,
    propertyOwner: map<PropertyId, AccountId>,
    propertyName: map<PropertyId, string>,
    propertyPrice: map<PropertyId, u32>,
    propertyApproved: map<PropertyId, bool>,
    propertyCount: u32,
    governanceSet: bool)

  /** A message's effect: the storage after the call and the value it returns. */
  datatype Step<+T> = Step(state: Contract, out: T)

  /** Everything the four mappings hold at one key: absent keys read as `None`. */
  datatype Entry = Entry(
    owner: Option<AccountId>,
    name: Option<string>,
    price: Option<u32>,
    approved: Option<bool>)

  function EntryAt(c: Contract, id: PropertyId): Entry {
    Entry(Get(c.propertyOwner, id), Get(c.propertyName, id),
          Get(c.propertyPrice, id), Get(c.propertyApproved, id))
  }

  /** The stored price of `id`, 0 when none is stored (`unwrap_or_default`). */
  function PriceOf(c: Contract, id: PropertyId): u32 {
    Get(c.propertyPrice, id).UnwrapOr(0)
  }

  /** The stored approval flag of `id`, false when none is stored. */
  predicate IsApproved(c: Contract, id: PropertyId) {
    Get(c.propertyApproved, id).UnwrapOr(false)
  }

  /** `d` differs from `c` at most in the entry stored at key `id`. */
  ghost predicate OnlyEntryChanged(c: Contract, d: Contract, id: PropertyId) {
    && d.governance == c.governance
    && d.governanceSet == c.governanceSet
    && d.propertyCount == c.propertyCount
    && forall k :: k != id ==> EntryAt(d, k) == EntryAt(c, k)
  }

  /** Two storages with the same scalar fields and the same entry at every key are equal. */
  lemma EntriesDetermineContract(c: Contract, d: Contract)
    requires d.governance == c.governance && d.governanceSet == c.governanceSet && d.propertyCount == c.propertyCount
    requires forall k :: EntryAt(d, k) == EntryAt(c, k)
    ensures d == c
  {
    assert d.propertyOwner == c.propertyOwner by {
      forall k ensures k in d.propertyOwner <==> k in c.propertyOwner {
        assert EntryAt(d, k).owner == EntryAt(c, k).owner;
      }
      forall k | k in c.propertyOwner ensures d.propertyOwner[k] == c.propertyOwner[k] {
        assert EntryAt(d, k).owner == EntryAt(c, k).owner;
      }
    }
    assert d.propertyName == c.propertyName by {
      forall k ensures k in d.propertyName <==> k in c.propertyName {
        assert EntryAt(d, k).name == EntryAt(c, k).name;
      }
      forall k | k in c.propertyName ensures d.propertyName[k] == c.propertyName[k] {
        assert EntryAt(d, k).name == EntryAt(c, k).name;
      }
    }
    assert d.propertyPrice == c.propertyPrice by {
      forall k ensures k in d.propertyPrice <==> k in c.propertyPrice {
        assert EntryAt(d, k).price == EntryAt(c, k).price;
      }
      forall k | k in c.propertyPrice ensures d.propertyPrice[k] == c.propertyPrice[k] {
        assert EntryAt(d, k).price == EntryAt(c, k).price;
      }
    }
    assert d.propertyApproved == c.propertyApproved by {
      forall k ensures k in d.propertyApproved <==> k in c.propertyApproved {
        assert EntryAt(d, k).approved == EntryAt(c, k).approved;
      }
      forall k | k in c.propertyApproved ensures d.propertyApproved[k] == c.propertyApproved[k] {
        assert EntryAt(d, k).approved == EntryAt(c, k).approved;
      }
    }
  }

  // ---------------------------------------------------------------------------
  // Constructor and messages
  // ---------------------------------------------------------------------------

  /** `new`: every field default-initialised. */
  function New(): (c: Contract)
    ensures !c.governanceSet && c.propertyCount == 0
    ensures forall x :: IsGovernance(c, x) <==> x == DefaultAccount
    ensures forall id :: EntryAt(c, id) == Entry(None, None, None, None)
    ensures forall id :: OwnerOf(c, id) == DefaultAccount && PriceOf(c, id) == 0 && !IsApproved(c, id)
  {
    Contract(DefaultAccount, map[], map[], map[], map[], 0, false)
  }

  /** `get_govt_id`: the first caller becomes governance; every call returns governance. */
  function GetGovtId(c: Contract, caller: AccountId): (r: Step<AccountId>)
    ensures r.state.governanceSet && IsGovernance(r.state, r.out)
    ensures !c.governanceSet ==> r.out == caller
    ensures c.governanceSet ==> r.state == c && r.out == c.governance
    ensures forall id :: EntryAt(r.state, id) == EntryAt(c, id)
    ensures r.state.propertyCount == c.propertyCount
  {
    if !c.governanceSet then
      var c' := c.(governance := caller, governanceSet := true);
      Step(c', c'.governance)
    else
      Step(c, c.governance)
  }

  /**
   `sell_property`: lists `name` at `price`, owned by the caller, unapproved,
   at key `propertyCount`, and returns that key. The count is never
   incremented, so every listing lands on the same key.
   */
  function SellProperty(c: Contract, caller: AccountId, name: string, price: u32): (r: Step<PropertyId>)
    ensures r.out == c.propertyCount == r.state.propertyCount
    ensures EntryAt(r.state, r.out) == Entry(Some(caller), Some(name), Some(price), Some(false))
    ensures OwnerOf(r.state, r.out) == caller && PriceOf(r.state, r.out) == price
    ensures !IsApproved(r.state, r.out)
    ensures OnlyEntryChanged(c, r.state, r.out)
  {
    var id := c.propertyCount;
    var c' := c.(propertyApproved := c.propertyApproved[id := false],
                 propertyName := c.propertyName[id := name],
                 propertyPrice := c.propertyPrice[id := price],
                 propertyOwner := c.propertyOwner[id := caller]);
    Step(c', id)
  }

  /** `approve_property`: governance-only; marks `id` approved, listed or not. */
  function ApproveProperty(c: Contract, caller: AccountId, id: PropertyId): (r: Step<Result<string>>)
    ensures r.out.Err? <==> caller != c.governance
    ensures r.out.Err? ==> r.out.error == NotTheGovernanceError && r.state == c
    ensures r.out.Ok? ==> r.out.value == "Approved" && IsApproved(r.state, id)
    ensures r.out.Ok? ==> EntryAt(r.state, id) == EntryAt(c, id).(approved := Some(true))
    ensures OnlyEntryChanged(c, r.state, id)
  {
    if !IsGovernance(c, caller) then
      Step(c, Err(NotTheGovernanceError))
    else
      Step(c.(propertyApproved := c.propertyApproved[id := true]), Ok("Approved"))
  }

  /** `buy_property`: the price check comes first, then the approval check. */
  function BuyProperty(c: Contract, caller: AccountId, id: PropertyId, price: u32): (r: Step<Result<()>>)
    ensures r.out == Err(PriceTooLess) <==> PriceOf(c, id) > price
    ensures r.out == Err(PropertyNotApproved) <==> PriceOf(c, id) <= price && !IsApproved(c, id)
    ensures r.out.Ok? <==> PriceOf(c, id) <= price && IsApproved(c, id)
    ensures r.out.Err? ==> r.state == c
    ensures r.out.Ok? ==> OwnerOf(r.state, id) == caller
    ensures r.out.Ok? ==> EntryAt(r.state, id) == EntryAt(c, id).(owner := Some(caller))
    ensures OnlyEntryChanged(c, r.state, id)
  {
    if PriceOf(c, id) > price then
      Step(c, Err(PriceTooLess))
    else if !IsApproved(c, id) then
      Step(c, Err(PropertyNotApproved))
    else
      Step(c.(propertyOwner := c.propertyOwner[id := caller]), Ok(()))
  }

  /** `is_governance`: a pure query. */
  predicate IsGovernance(c: Contract, candidate: AccountId)
  {
    c.governance == candidate
  }

  /** `owner_of`: a pure query; an id with no stored owner reads as the default account. */
  function OwnerOf(c: Contract, id: PropertyId): (owner: AccountId)
    ensures EntryAt(c, id).owner.Some? ==> owner == EntryAt(c, id).owner.value
    ensures EntryAt(c, id).owner.None? ==> owner == DefaultAccount
  {
    Get(c.propertyOwner, id).UnwrapOr(DefaultAccount)
  }

  // ---------------------------------------------------------------------------
  // How messages combine
  // ---------------------------------------------------------------------------

  /** Once governance is taken, `get_govt_id` answers the same whoever calls and changes nothing. */
  lemma GovernanceFirstWriteWins(c: Contract, first: AccountId, later: AccountId)
    ensures var s1 := GetGovtId(c, first);
            var s2 := GetGovtId(s1.state, later);
            s2.state == s1.state && s2.out == s1.out
            && (!c.governanceSet ==> s2.out == first && IsGovernance(s2.state, first))
  {
  }

  /**
   Until someone calls `get_govt_id`, governance is the all-zero default
   account, so that account, and only that account, may approve.
   */
  lemma DefaultAccountGovernsUntilClaimed(caller: AccountId, id: PropertyId)
    ensures ApproveProperty(New(), caller, id).out.Ok? <==> caller == DefaultAccount
  {
  }

  /** A freshly constructed contract refuses every purchase as unapproved, whatever the offer. */
  lemma NewContractRefusesPurchases(buyer: AccountId, id: PropertyId, offer: u32)
    ensures BuyProperty(New(), buyer, id, offer).out == Err(PropertyNotApproved)
  {
  }

  /**
   Two listings in a row return the same id, and the second wipes out the
   first: the storage is as if only the second listing had been made.
   */
  lemma RelistingOverwrites(c: Contract, a: AccountId, n1: string, p1: u32,
                            b: AccountId, n2: string, p2: u32)
    ensures var s1 := SellProperty(c, a, n1, p1);
            var s2 := SellProperty(s1.state, b, n2, p2);
            s2.out == s1.out && s2.state == SellProperty(c, b, n2, p2).state
  {
    var s1 := SellProperty(c, a, n1, p1);
    var s2 := SellProperty(s1.state, b, n2, p2);
    var s := SellProperty(c, b, n2, p2);
    forall k ensures EntryAt(s2.state, k) == EntryAt(s.state, k) {
      if k != c.propertyCount {
        assert EntryAt(s2.state, k) == EntryAt(s1.state, k) == EntryAt(c, k);
      }
    }
    EntriesDetermineContract(s.state, s2.state);
  }

  /**
   An approved listing loses both its approval and its seller when anyone
   lists again, because the new listing is written at the same key.
   */
  lemma RelistingRevokesApproval(c: Contract, seller: AccountId, n1: string, p1: u32,
                                 lister: AccountId, n2: string, p2: u32)
    ensures var s1 := SellProperty(c, seller, n1, p1);
            var s2 := ApproveProperty(s1.state, c.governance, s1.out);
            var s3 := SellProperty(s2.state, lister, n2, p2);
            IsApproved(s2.state, s1.out) && s3.out == s1.out
            && !IsApproved(s3.state, s1.out) && OwnerOf(s3.state, s1.out) == lister
  {
  }

  /** Approving twice leaves the same storage as approving once. */
  lemma ApproveIdempotent(c: Contract, caller: AccountId, id: PropertyId)
    ensures var s1 := ApproveProperty(c, caller, id);
            ApproveProperty(s1.state, caller, id) == s1
  {
    var s1 := ApproveProperty(c, caller, id);
    if s1.out.Ok? {
      assert s1.state.propertyApproved[id := true] == s1.state.propertyApproved;
    }
  }

  /** Once governance approves `id`, any offer of at least its price buys it. */
  lemma ApprovedPropertyIsPurchasable(c: Contract, id: PropertyId, buyer: AccountId, offer: u32)
    requires offer >= PriceOf(c, id)
    ensures var s1 := ApproveProperty(c, c.governance, id);
            var s2 := BuyProperty(s1.state, buyer, id, offer);
            s2.out == Ok(()) && OwnerOf(s2.state, id) == buyer
  {
  }

  /** A purchase can be repeated by another buyer, who then owns the property. */
  lemma PurchaseRepeatable(c: Contract, id: PropertyId, b1: AccountId, p1: u32, b2: AccountId, p2: u32)
    requires BuyProperty(c, b1, id, p1).out.Ok?
    requires p2 >= PriceOf(c, id)
    ensures var s1 := BuyProperty(c, b1, id, p1);
            var s2 := BuyProperty(s1.state, b2, id, p2);
            s2.out == Ok(()) && OwnerOf(s2.state, id) == b2 && PriceOf(s2.state, id) == PriceOf(c, id)
  {
  }

  /**
   An id that was never listed reads as free and unapproved: governance can
   approve it and anyone can then buy it for 0, becoming its owner, though
   it has no name and no price.
   */
  lemma UnlistedIdCanBeBought(c: Contract, id: PropertyId, buyer: AccountId)
    requires EntryAt(c, id) == Entry(None, None, None, None)
    ensures var s1 := ApproveProperty(c, c.governance, id);
            var s2 := BuyProperty(s1.state, buyer, id, 0);
            s2.out == Ok(()) && OwnerOf(s2.state, id) == buyer
            && EntryAt(s2.state, id) == Entry(Some(buyer), None, None, Some(true))
  {
  }

  /** After `get_govt_id`, `is_governance` holds exactly of the identity it returned. */
  lemma IsGovernanceAfterGetGovtId(c: Contract, caller: AccountId, x: AccountId)
    ensures var s := GetGovtId(c, caller);
            IsGovernance(s.state, x) <==> x == s.out
  {
  }
}
