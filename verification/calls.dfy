/**
 Sequences of calls to the contract. The ink! runtime executes each message
 atomically and one at a time; `Dispatch` routes one call to its message
 and `Run` folds a sequence of calls over the storage, collecting replies.
 The lemmas here hold over every such sequence.
 */
module Calls {
  import opened Types
  import RealEstate

  type Contract = RealEstate.Contract

  /** The contract's messages with their arguments. */
  datatype Message =
    | GetGovtId
    | SellProperty(name: string, price: u32)
    | ApproveProperty(id: PropertyId)
    | BuyProperty(id: PropertyId, price: u32)
    | IsGovernance(candidate: AccountId)
    | OwnerOf(id: PropertyId)

  /** One call: the account the runtime reports as caller, and the message. */
  datatype Call = Call(caller: AccountId, msg: Message)

  /** What each message returns. */
  datatype Reply =
    | Governance(account: AccountId)
    | Listed(id: PropertyId)
    | Approval(approval: Result<string>)
    | Purchase(purchase: Result<()>)
    | GovernanceCheck(answer: bool)
    | Owner(account: AccountId)

  /** Every listed key has all four entries: price and owner, and an approval flag. */
  ghost predicate Consistent(c: Contract) {
    && c.propertyPrice.Keys == c.propertyName.Keys
    && c.propertyName.Keys <= c.propertyOwner.Keys
    && c.propertyName.Keys <= c.propertyApproved.Keys
  }

  function Dispatch(c: Contract, call: Call): (r: RealEstate.Step<Reply>)
    ensures call.msg.IsGovernance? || call.msg.OwnerOf? ==> r.state == c
    ensures !call.msg.GetGovtId? ==> r.state.governance == c.governance && r.state.governanceSet == c.governanceSet
    ensures c.governanceSet ==> r.state.governanceSet && r.state.governance == c.governance
    ensures r.state.propertyCount == c.propertyCount
    ensures call.msg.GetGovtId? ==> r.out == Governance(r.state.governance)
    ensures call.msg.SellProperty? ==> r.out == Listed(c.propertyCount)
  {
    match call.msg
    case GetGovtId =>
      var s := RealEstate.GetGovtId(c, call.caller);
      RealEstate.Step(s.state, Governance(s.out))
    case SellProperty(name, price) =>
      var s := RealEstate.SellProperty(c, call.caller, name, price);
      RealEstate.Step(s.state, Listed(s.out))
    case ApproveProperty(id) =>
      var s := RealEstate.ApproveProperty(c, call.caller, id);
      RealEstate.Step(s.state, Approval(s.out))
    case BuyProperty(id, price) =>
      var s := RealEstate.BuyProperty(c, call.caller, id, price);
      RealEstate.Step(s.state, Purchase(s.out))
    case IsGovernance(candidate) =>
      RealEstate.Step(c, GovernanceCheck(RealEstate.IsGovernance(c, candidate)))
    case OwnerOf(id) =>
      RealEstate.Step(c, Owner(RealEstate.OwnerOf(c, id)))
  }

  /** An approval is lost only through `sell_property`, at key `property_count`. */
  lemma DispatchRevokesOnlyByListing(c: Contract, call: Call, id: PropertyId)
    requires RealEstate.IsApproved(c, id) && !RealEstate.IsApproved(Dispatch(c, call).state, id)
    ensures call.msg.SellProperty? && id == c.propertyCount
  {
  }

  /** No call changes the name stored at a key other than `property_count`. */
  lemma DispatchKeepsOtherNames(c: Contract, call: Call, id: PropertyId)
    requires id != c.propertyCount
    ensures RealEstate.EntryAt(Dispatch(c, call).state, id).name == RealEstate.EntryAt(c, id).name
  {
  }

  /** Every call preserves `Consistent`. */
  lemma DispatchPreservesConsistency(c: Contract, call: Call)
    requires Consistent(c)
    ensures Consistent(Dispatch(c, call).state)
  {
  }

  /** The storage after a sequence of calls, and the reply to each call in order. */
  datatype Trace = Trace(final: Contract, replies: seq<Reply>)

  function Run(c: Contract, calls: seq<Call>): (t: Trace)
    ensures |t.replies| == |calls|
    ensures t.final.propertyCount == c.propertyCount
    ensures c.governanceSet ==> t.final.governanceSet && t.final.governance == c.governance
    decreases |calls|
  {
    if calls == [] then
      Trace(c, [])
    else
      var s := Dispatch(c, calls[0]);
      var rest := Run(s.state, calls[1..]);
      Trace(rest.final, [s.out] + rest.replies)
  }

  /** Running a call and then a sequence of calls is running them together. */
  lemma RunStep(c: Contract, call: Call, calls: seq<Call>)
    ensures var s := Dispatch(c, call);
            var rest := Run(s.state, calls);
            Run(c, [call] + calls) == Trace(rest.final, [s.out] + rest.replies)
  {
    assert ([call] + calls)[1..] == calls;
  }

  /** Running two sequences of calls back to back is running their concatenation. */
  lemma {:induction false} RunConcat(c: Contract, xs: seq<Call>, ys: seq<Call>)
    ensures var first := Run(c, xs);
            var second := Run(first.final, ys);
            Run(c, xs + ys) == Trace(second.final, first.replies + second.replies)
    decreases |xs|
  {
    if xs == [] {
      assert xs + ys == ys;
    } else {
      var s := Dispatch(c, xs[0]);
      assert (xs + ys)[0] == xs[0];
      assert (xs + ys)[1..] == xs[1..] + ys;
      RunConcat(s.state, xs[1..], ys);
      var first := Run(s.state, xs[1..]);
      var second := Run(first.final, ys);
      assert [s.out] + (first.replies + second.replies) == ([s.out] + first.replies) + second.replies;
    }
  }

  /**
   A run whose every call is known to take `states[j]` to `states[j + 1]`
   with reply `replies[j]` ends, from any call on, in the last state with
   the remaining replies.
   */
  lemma {:induction false} RunFollowsSteps(states: seq<Contract>, calls: seq<Call>, replies: seq<Reply>, k: nat)
    requires |states| == |calls| + 1 && |replies| == |calls| && k <= |calls|
    requires forall j :: 0 <= j < |calls| ==> Dispatch(states[j], calls[j]) == RealEstate.Step(states[j + 1], replies[j])
    ensures Run(states[k], calls[k..]) == Trace(states[|calls|], replies[k..])
    decreases |calls| - k
  {
    if k < |calls| {
      RunFollowsSteps(states, calls, replies, k + 1);
      assert calls[k..] == [calls[k]] + calls[k + 1..];
      assert replies[k..] == [replies[k]] + replies[k + 1..];
      RunStep(states[k], calls[k], calls[k + 1..]);
    } else {
      assert calls[k..] == [] && replies[k..] == [];
    }
  }

  /** The caller of the first `get_govt_id` in `calls`, if there is one. */
  function FirstGovtIdCaller(calls: seq<Call>): Option<AccountId> {
    if calls == [] then None
    else if calls[0].msg.GetGovtId? then Some(calls[0].caller)
    else FirstGovtIdCaller(calls[1..])
  }

  /**
   Starting with governance unclaimed, it is claimed after a run exactly when
   the run calls `get_govt_id`, and then it is the first such caller.
   */
  lemma {:induction false} FirstGovtIdCallerGoverns(c: Contract, calls: seq<Call>)
    requires !c.governanceSet
    ensures var t := Run(c, calls);
            && (t.final.governanceSet <==> FirstGovtIdCaller(calls).Some?)
            && (FirstGovtIdCaller(calls).Some? ==> t.final.governance == FirstGovtIdCaller(calls).value)
            && (FirstGovtIdCaller(calls).None? ==> t.final.governance == c.governance)
    decreases |calls|
  {
    if calls != [] {
      var s := Dispatch(c, calls[0]);
      if !calls[0].msg.GetGovtId? {
        FirstGovtIdCallerGoverns(s.state, calls[1..]);
      }
    }
  }

  /** Every `get_govt_id` in a run answers the same identity: the governance at the end. */
  lemma {:induction false} GovtIdRepliesAgree(c: Contract, calls: seq<Call>)
    ensures var t := Run(c, calls);
            forall i :: 0 <= i < |calls| && calls[i].msg.GetGovtId? ==> t.replies[i] == Governance(t.final.governance)
    decreases |calls|
  {
    if calls != [] {
      var s := Dispatch(c, calls[0]);
      GovtIdRepliesAgree(s.state, calls[1..]);
      var t := Run(c, calls);
      var rest := Run(s.state, calls[1..]);
      forall i | 0 <= i < |calls| && calls[i].msg.GetGovtId?
        ensures t.replies[i] == Governance(t.final.governance)
      {
        if i > 0 {
          assert calls[i] == calls[1..][i - 1];
          assert t.replies[i] == rest.replies[i - 1];
        }
      }
    }
  }

  /** Every `sell_property` in a run returns the same id: the starting `property_count`. */
  lemma {:induction false} ListingsShareOneId(c: Contract, calls: seq<Call>)
    ensures var t := Run(c, calls);
            forall i :: 0 <= i < |calls| && calls[i].msg.SellProperty? ==> t.replies[i] == Listed(c.propertyCount)
    decreases |calls|
  {
    if calls != [] {
      var s := Dispatch(c, calls[0]);
      ListingsShareOneId(s.state, calls[1..]);
      var t := Run(c, calls);
      var rest := Run(s.state, calls[1..]);
      forall i | 0 <= i < |calls| && calls[i].msg.SellProperty?
        ensures t.replies[i] == Listed(c.propertyCount)
      {
        if i > 0 {
          assert calls[i] == calls[1..][i - 1];
          assert t.replies[i] == rest.replies[i - 1];
        }
      }
    }
  }

  /** Names are only ever stored at the starting `property_count`. */
  lemma {:induction false} ListingsStayAtOneKey(c: Contract, calls: seq<Call>)
    ensures Run(c, calls).final.propertyName.Keys <= c.propertyName.Keys + {c.propertyCount}
    decreases |calls|
  {
    if calls != [] {
      var s := Dispatch(c, calls[0]);
      ListingsStayAtOneKey(s.state, calls[1..]);
      forall k | k in s.state.propertyName && k != c.propertyCount
        ensures k in c.propertyName
      {
        DispatchKeepsOtherNames(c, calls[0], k);
        assert RealEstate.EntryAt(s.state, k).name == RealEstate.EntryAt(c, k).name;
      }
    }
  }

  /** Every run preserves `Consistent`. */
  lemma {:induction false} RunPreservesConsistency(c: Contract, calls: seq<Call>)
    requires Consistent(c)
    ensures Consistent(Run(c, calls).final)
    decreases |calls|
  {
    if calls != [] {
      DispatchPreservesConsistency(c, calls[0]);
      RunPreservesConsistency(Dispatch(c, calls[0]).state, calls[1..]);
    }
  }

  /**
   An approval at any key other than `property_count` is never undone; at
   that key only a `sell_property` in the run can undo it.
   */
  lemma {:induction false} ApprovalOnlyRevokedByRelisting(c: Contract, calls: seq<Call>, id: PropertyId)
    requires RealEstate.IsApproved(c, id)
    requires !RealEstate.IsApproved(Run(c, calls).final, id)
    ensures id == c.propertyCount
    ensures exists i :: 0 <= i < |calls| && calls[i].msg.SellProperty?
    decreases |calls|
  {
    if calls == [] {
      assert false;
    } else {
      var s := Dispatch(c, calls[0]);
      if RealEstate.IsApproved(s.state, id) {
        ApprovalOnlyRevokedByRelisting(s.state, calls[1..], id);
        var i :| 0 <= i < |calls[1..]| && calls[1..][i].msg.SellProperty?;
        assert calls[i + 1] == calls[1..][i];
      } else {
        DispatchRevokesOnlyByListing(c, calls[0], id);
      }
    }
  }

  /**
   Every state reachable from `new` by any sequence of calls: the count is
   still 0, every listing returned id 0, names are stored at key 0 only, and
   every listed key has all four entries.
   */
  lemma ReachableFromNew(calls: seq<Call>)
    ensures var t := Run(RealEstate.New(), calls);
            && t.final.propertyCount == 0
            && (forall i :: 0 <= i < |calls| && calls[i].msg.SellProperty? ==> t.replies[i] == Listed(0))
            && t.final.propertyName.Keys <= {0}
            && Consistent(t.final)
  {
    ListingsShareOneId(RealEstate.New(), calls);
    ListingsStayAtOneKey(RealEstate.New(), calls);
    RunPreservesConsistency(RealEstate.New(), calls);
  }
}
