/**
 A concrete walk through the contract: governance is claimed, a house is
 listed, approved and bought, a low offer is refused, and a second listing
 lands on id 0 again, overwriting the first.
 */
module Scenario {
  import opened Types
  import RealEstate
  import opened Calls

  /** The four accounts of the walk-through; any accounts will do, equal or not. */
  datatype Cast = Cast(alice: AccountId, bob: AccountId, carol: AccountId, dave: AccountId)

  /** Governance claimed by Alice, nothing listed. */
  function Claimed(p: Cast): Contract {
    RealEstate.Contract(p.alice, map[], map[], map[], map[], 0, true)
  }

  /** Governance claimed by Alice, one listing at key 0. */
  function OneListing(p: Cast, owner: AccountId, name: string, price: u32, approved: bool): Contract {
    RealEstate.Contract(p.alice, map[0 := owner], map[0 := name], map[0 := price], map[0 := approved], 0, true)
  }

  /** The calls of the walk-through, in order. */
  function HouseSaleCalls(p: Cast): seq<Call> {
    [Call(p.alice, GetGovtId),                  // Alice claims governance
     Call(p.bob, SellProperty("House", 100)),   // Bob lists a house at 100
     Call(p.alice, ApproveProperty(0)),         // Alice approves it
     Call(p.carol, BuyProperty(0, 150)),        // Carol buys it for 150
     Call(p.dave, OwnerOf(0)),                  // Carol owns it
     Call(p.dave, BuyProperty(0, 50)),          // Dave's offer of 50 is too low
     Call(p.carol, SellProperty("Flat", 10)),   // Carol lists a flat: id 0 again
     Call(p.dave, BuyProperty(1, 200)),         // id 1 was never listed
     Call(p.dave, BuyProperty(0, 200)),         // the flat replaced the approved house
     Call(p.dave, OwnerOf(0))]                  // Carol owns id 0 as its lister
  }

  /** The reply to each call of the walk-through. */
  function HouseSaleReplies(p: Cast): seq<Reply> {
    [Governance(p.alice),
     Listed(0),
     Approval(Ok("Approved")),
     Purchase(Ok(())),
     Owner(p.carol),
     Purchase(Err(PriceTooLess)),
     Listed(0),
     Purchase(Err(PropertyNotApproved)),
     Purchase(Err(PropertyNotApproved)),
     Owner(p.carol)]
  }

  /** The storage before each call of the walk-through, and after the last. */
  function HouseSaleStates(p: Cast): seq<Contract> {
    [RealEstate.New(),
     Claimed(p),
     OneListing(p, p.bob, "House", 100, false),
     OneListing(p, p.bob, "House", 100, true),
     OneListing(p, p.carol, "House", 100, true),
     OneListing(p, p.carol, "House", 100, true),
     OneListing(p, p.carol, "House", 100, true),
     OneListing(p, p.carol, "Flat", 10, false),
     OneListing(p, p.carol, "Flat", 10, false),
     OneListing(p, p.carol, "Flat", 10, false),
     OneListing(p, p.carol, "Flat", 10, false)]
  }

  /** Alice claims governance and Bob lists the house at id 0. */
  lemma HouseListed(p: Cast)
    ensures Dispatch(RealEstate.New(), Call(p.alice, GetGovtId))
            == RealEstate.Step(Claimed(p), Governance(p.alice))
    ensures Dispatch(Claimed(p), Call(p.bob, SellProperty("House", 100)))
            == RealEstate.Step(OneListing(p, p.bob, "House", 100, false), Listed(0))
  {
  }

  /** Alice approves the house, Carol buys it and then owns it. */
  lemma HouseSold(p: Cast)
    ensures Dispatch(OneListing(p, p.bob, "House", 100, false), Call(p.alice, ApproveProperty(0)))
            == RealEstate.Step(OneListing(p, p.bob, "House", 100, true), Approval(Ok("Approved")))
    ensures Dispatch(OneListing(p, p.bob, "House", 100, true), Call(p.carol, BuyProperty(0, 150)))
            == RealEstate.Step(OneListing(p, p.carol, "House", 100, true), Purchase(Ok(())))
    ensures Dispatch(OneListing(p, p.carol, "House", 100, true), Call(p.dave, OwnerOf(0)))
            == RealEstate.Step(OneListing(p, p.carol, "House", 100, true), Owner(p.carol))
  {
  }

  /** Dave's low offer is refused; Carol's flat replaces the house at id 0. */
  lemma HouseRelisted(p: Cast)
    ensures Dispatch(OneListing(p, p.carol, "House", 100, true), Call(p.dave, BuyProperty(0, 50)))
            == RealEstate.Step(OneListing(p, p.carol, "House", 100, true), Purchase(Err(PriceTooLess)))
    ensures Dispatch(OneListing(p, p.carol, "House", 100, true), Call(p.carol, SellProperty("Flat", 10)))
            == RealEstate.Step(OneListing(p, p.carol, "Flat", 10, false), Listed(0))
  {
  }

  /** Dave can buy neither id 1 nor the unapproved flat; Carol owns id 0. */
  lemma FlatRefused(p: Cast)
    ensures Dispatch(OneListing(p, p.carol, "Flat", 10, false), Call(p.dave, BuyProperty(1, 200)))
            == RealEstate.Step(OneListing(p, p.carol, "Flat", 10, false), Purchase(Err(PropertyNotApproved)))
    ensures Dispatch(OneListing(p, p.carol, "Flat", 10, false), Call(p.dave, BuyProperty(0, 200)))
            == RealEstate.Step(OneListing(p, p.carol, "Flat", 10, false), Purchase(Err(PropertyNotApproved)))
    ensures Dispatch(OneListing(p, p.carol, "Flat", 10, false), Call(p.dave, OwnerOf(0)))
            == RealEstate.Step(OneListing(p, p.carol, "Flat", 10, false), Owner(p.carol))
  {
  }

  /** Call `k` of the walk-through takes its state to the next one and gets its reply. */
  lemma HouseSaleStep(p: Cast, k: nat)
    requires k < 10
    ensures Dispatch(HouseSaleStates(p)[k], HouseSaleCalls(p)[k])
            == RealEstate.Step(HouseSaleStates(p)[k + 1], HouseSaleReplies(p)[k])
  {
    if k < 2 {
      HouseListed(p);
    } else if k < 5 {
      HouseSold(p);
    } else if k < 7 {
      HouseRelisted(p);
    } else {
      FlatRefused(p);
    }
  }

  /**
   The whole walk-through run from a fresh contract, for any four accounts:
   the house is sold to Carol, a low offer is refused, and Carol's second
   listing lands on id 0, replacing the approved house with an unapproved flat.
   */
  lemma HouseSale(p: Cast)
    ensures var t := Run(RealEstate.New(), HouseSaleCalls(p));
            t.replies == HouseSaleReplies(p)
            && t.final == OneListing(p, p.carol, "Flat", 10, false)
  {
    var states, calls, replies := HouseSaleStates(p), HouseSaleCalls(p), HouseSaleReplies(p);
    forall k | 0 <= k < |calls|
      ensures Dispatch(states[k], calls[k]) == RealEstate.Step(states[k + 1], replies[k])
    {
      HouseSaleStep(p, k);
    }
    RunFollowsSteps(states, calls, replies, 0);
    assert calls[0..] == calls;
    assert replies[0..] == replies;
  }
}
