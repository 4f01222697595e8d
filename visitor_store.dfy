/**
 * The in-memory visitor log (src/state/visitorStore.ts): an ordered list of
 * visitor records, newest first, and a loading flag. On-device persistence
 * is not part of this model.
 */
module VisitorStore {
  import opened Types
  import VisitPurposes
  import Sources
  import Branches

  /** The limit `getRecentVisitors` applies when called without one. */
  const DefaultRecentLimit := 10

  /** The five demonstration records the store starts with, newest first. */
  const Seed: seq<Visitor> := [JohnSmith, SarahJohnson, MikeChen, EmilyDavis, RobertWilson]

  const JohnSmith := Visitor("John Smith", Some("john.smith@email.com"), "+1-555-0123", "meeting", "website",
    "https://avatar.iran.liara.run/public/1", "", "Main Office", Timestamp(2024, 1, 15, 10, 30, 0))
  const SarahJohnson := Visitor("Sarah Johnson", Some("sarah.j@company.com"), "+1-555-0456", "interview", "referral",
    "https://avatar.iran.liara.run/public/2", "", "Branch A", Timestamp(2024, 1, 14, 14, 15, 0))
  const MikeChen := Visitor("Mike Chen", Some("mike.chen@tech.com"), "+1-555-0789", "consultation", "social_media",
    "https://avatar.iran.liara.run/public/3", "", "Branch B", Timestamp(2024, 1, 13, 9, 45, 0))
  const EmilyDavis := Visitor("Emily Davis", Some("emily.davis@email.com"), "+1-555-0321", "delivery", "advertisement",
    "https://avatar.iran.liara.run/public/4", "", "Main Office", Timestamp(2024, 1, 12, 16, 20, 0))
  const RobertWilson := Visitor("Robert Wilson", Some("robert.w@business.com"), "+1-555-0654", "maintenance", "website",
    "https://avatar.iran.liara.run/public/5", "", "Branch C", Timestamp(2024, 1, 11, 11, 0, 0))

  /**
   * What `getRecentVisitors(limit)` returns for a given list: `visitors.slice(0, limit)`,
   * with 10 when no limit is passed.
   */
  function Recent(visitors: seq<Visitor>, limit: Option<int>): (r: seq<Visitor>)
    ensures r <= visitors
    ensures limit.None? ==> |r| == if |visitors| < DefaultRecentLimit then |visitors| else DefaultRecentLimit
    ensures limit.Some? && limit.value >= 0 ==> |r| == if |visitors| < limit.value then |visitors| else limit.value
    ensures limit.Some? && limit.value < 0 ==> |r| == if |visitors| + limit.value > 0 then |visitors| + limit.value else 0
  {
    match limit
    case None => SliceTo(visitors, DefaultRecentLimit)
    case Some(n) => SliceTo(visitors, n)
  }

  class Store {
    var visitors: seq<Visitor>
    var isLoading: bool

    /** The initial state: the five seed records, not loading. */
    constructor ()
      ensures visitors == Seed && !isLoading
    {
      visitors := Seed;
      isLoading := false;
    }

    /** `addVisitor`: puts the record in front of the existing ones; no deduplication. */
    method AddVisitor(visitor: Visitor)
      modifies this
      ensures visitors == [visitor] + old(visitors)
      ensures isLoading == old(isLoading)
    {
      visitors := [visitor] + visitors;
    }

    /** `getRecentVisitors`: a read that leaves the store as it is. */
    method GetRecentVisitors(limit: Option<int>) returns (r: seq<Visitor>)
      ensures r == Recent(visitors, limit)
    {
      r := Recent(visitors, limit);
    }

    /** `setLoading`: changes the flag and nothing else. */
    method SetLoading(loading: bool)
      modifies this
      ensures isLoading == loading
      ensures visitors == old(visitors)
    {
      isLoading := loading;
    }

    /** `clearVisitors`: empties the list and keeps the flag. */
    method ClearVisitors()
      modifies this
      ensures visitors == []
      ensures isLoading == old(isLoading)
    {
      visitors := [];
    }
  }

  /** After an add, the new record is first in every non-empty recent window, followed by the old list. */
  lemma RecentAfterAdd(visitor: Visitor, before: seq<Visitor>, n: int)
    requires n >= 1
    ensures var r := Recent([visitor] + before, Some(n)); |r| >= 1 && r[0] == visitor && r[1..] == Recent(before, Some(n - 1))
  {
    var after := [visitor] + before;
    var r := Recent(after, Some(n));
    assert r == after[..|r|];
    assert r[1..] == before[..|r| - 1];
  }

  /** Omitting the limit is the same as passing 10. */
  lemma DefaultLimitIsTen(visitors: seq<Visitor>)
    ensures Recent(visitors, None) == Recent(visitors, Some(10))
  {
  }

  /** Adding the same record twice keeps both copies, in front of the old list. */
  lemma AddTwiceKeepsBoth(visitor: Visitor, before: seq<Visitor>)
    ensures var after := [visitor] + ([visitor] + before);
      |after| == |before| + 2 && after[0] == after[1] == visitor && after[2..] == before
      && multiset(after)[visitor] == multiset(before)[visitor] + 2
  {
    var after := [visitor] + ([visitor] + before);
    assert after == [visitor, visitor] + before;
  }

  /** The seed is five records, strictly newest first. */
  lemma SeedNewestFirst()
    ensures |Seed| == 5
    ensures forall i :: 0 <= i < |Seed| - 1 ==> Before(Seed[i + 1].timestamp, Seed[i].timestamp)
  {
  }

  /** Every seed record names a listed purpose, a listed source and a listed branch. */
  lemma SeedUsesTables()
    ensures forall i :: 0 <= i < |Seed| ==> VisitPurposes.IsPurposeValue(Seed[i].purpose)
    ensures forall i :: 0 <= i < |Seed| ==> Sources.IsSourceValue(Seed[i].source)
    ensures forall i :: 0 <= i < |Seed| ==> Branches.IsBranchName(Seed[i].branch)
  {
    assert VisitPurposes.VisitPurposeTable[0].value == Seed[0].purpose;
    assert VisitPurposes.VisitPurposeTable[1].value == Seed[1].purpose;
    assert VisitPurposes.VisitPurposeTable[4].value == Seed[2].purpose;
    assert VisitPurposes.VisitPurposeTable[2].value == Seed[3].purpose;
    assert VisitPurposes.VisitPurposeTable[3].value == Seed[4].purpose;
    assert Sources.SourceTable[0].value == Seed[0].source;
    assert Sources.SourceTable[2].value == Seed[1].source;
    assert Sources.SourceTable[1].value == Seed[2].source;
    assert Sources.SourceTable[3].value == Seed[3].source;
    assert Sources.SourceTable[0].value == Seed[4].source;
    assert Branches.BranchTable[0].name == Seed[0].branch;
    assert Branches.BranchTable[1].name == Seed[1].branch;
    assert Branches.BranchTable[2].name == Seed[2].branch;
    assert Branches.BranchTable[0].name == Seed[3].branch;
    assert Branches.BranchTable[3].name == Seed[4].branch;
  }

  /** Every seed record carries an empty signature. */
  lemma SeedSignaturesEmpty()
    ensures forall i :: 0 <= i < |Seed| ==> Seed[i].signature == ""
  {
  }

  /** A client run of the store: add twice, clear twice, and read back. */
  method StoreSession(visitor: Visitor) returns (firstAfterAdd: seq<Visitor>, afterClear: seq<Visitor>)
    ensures firstAfterAdd == [visitor]
    ensures afterClear == []
  {
    var store := new Store();
    store.AddVisitor(visitor);
    firstAfterAdd := store.GetRecentVisitors(Some(1));
    store.AddVisitor(visitor);
    assert store.visitors[0] == store.visitors[1] == visitor;
    store.SetLoading(true);
    store.ClearVisitors();
    store.ClearVisitors();
    assert store.isLoading;
    afterClear := store.GetRecentVisitors(None);
  }
}
