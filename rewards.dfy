/** Reward eligibility of src/components/RewardSystem.tsx: a fixed catalog
    of five rewards, each unlocked once both its XP threshold and its
    quest-count threshold are met; a list of claimed reward ids kept as
    component state; the "next reward" scan; and the three rendered views
    (available, claimed, upcoming/locked). */
module Rewards {
  import opened Wrappers
  import opened Seqs

  datatype RewardType = Voucher | Discount | Freebie

  datatype Reward = Reward(
    id: string,
    title: string,
    kind: RewardType,
    value: string,
    code: Option<string>,
    xpRequired: int,
    questsRequired: int)

  function Catalog(): seq<Reward> {
    [ Reward("welcome", "10% Rabatt bei CafeZentral", Discount, "10%", Some("QUEST10"), 100, 1),
      Reward("explorer", "Freigetränk im BarHopping", Freebie, "1 Getränk gratis", Some("EXPLORER2024"), 500, 5),
      Reward("social", "25€ Gutschein für EscapeRooms", Voucher, "25€", Some("TEAM25"), 1000, 10),
      Reward("master", "50% Rabatt auf Premium Events", Discount, "50%", Some("MASTER50"), 2000, 20),
      Reward("legend", "Gratis VIP-Event Teilnahme", Freebie, "VIP Event", Some("LEGEND2024"), 5000, 50) ]
  }

  /** The `available` field every catalog entry computes from the props. */
  predicate IsAvailable(r: Reward, userXP: int, completedQuests: int) {
    userXP >= r.xpRequired && completedQuests >= r.questsRequired
  }

  /** Neither available nor claimed: shown under "Kommende Belohnungen". */
  predicate IsUpcoming(r: Reward, claimed: seq<string>, userXP: int, completedQuests: int) {
    !IsAvailable(r, userXP, completedQuests) && r.id !in claimed
  }

  function AvailableRewards(c: seq<Reward>, claimed: seq<string>, userXP: int, completedQuests: int): seq<Reward> {
    Filter(c, (r: Reward) => IsAvailable(r, userXP, completedQuests) && r.id !in claimed)
  }

  function ClaimedRewards(c: seq<Reward>, claimed: seq<string>): seq<Reward> {
    Filter(c, (r: Reward) => r.id in claimed)
  }

  function LockedRewards(c: seq<Reward>, claimed: seq<string>, userXP: int, completedQuests: int): seq<Reward> {
    Filter(c, r => IsUpcoming(r, claimed, userXP, completedQuests))
  }

  /** The first catalog reward, in declaration order, that is neither
      available nor claimed: the one the "Nächste Belohnung" card shows. */
  function GetNextReward(c: seq<Reward>, claimed: seq<string>, userXP: int, completedQuests: int): (next: Option<Reward>)
    ensures next.Some? ==>
      exists i :: 0 <= i < |c| && c[i] == next.value && IsUpcoming(c[i], claimed, userXP, completedQuests)
        && forall j :: 0 <= j < i ==> !IsUpcoming(c[j], claimed, userXP, completedQuests)
    ensures next.None? ==> forall r :: r in c ==> !IsUpcoming(r, claimed, userXP, completedQuests)
  {
    var i := FirstIndex(c, r => IsUpcoming(r, claimed, userXP, completedQuests));
    if i < |c| then Some(c[i]) else None
  }

  /** Both thresholds strictly increase down the catalog. */
  predicate ThresholdsIncreasing(c: seq<Reward>) {
    forall i, j :: 0 <= i < j < |c| ==>
      c[i].xpRequired < c[j].xpRequired && c[i].questsRequired < c[j].questsRequired
  }

  predicate UniqueIds(c: seq<Reward>) {
    forall i, j :: 0 <= i < j < |c| ==> c[i].id != c[j].id
  }

  /** The number of leading catalog entries that are available. */
  function AvailableCount(c: seq<Reward>, userXP: int, completedQuests: int): nat {
    FirstIndex(c, r => !IsAvailable(r, userXP, completedQuests))
  }

  /** The rendered catalog satisfies both shape conditions. */
  lemma CatalogWellFormed()
    ensures ThresholdsIncreasing(Catalog())
    ensures UniqueIds(Catalog())
  {
  }

  /** Every catalog entry appears in exactly one of the three views; the
      claim button (offered in the available view only) is shown only for
      available, unclaimed rewards; entries outside the catalog appear in
      no view. */
  lemma ViewsPartition(c: seq<Reward>, claimed: seq<string>, userXP: int, completedQuests: int, r: Reward)
    ensures r in AvailableRewards(c, claimed, userXP, completedQuests)
      <==> r in c && IsAvailable(r, userXP, completedQuests) && r.id !in claimed
    ensures r in ClaimedRewards(c, claimed) <==> r in c && r.id in claimed
    ensures r in LockedRewards(c, claimed, userXP, completedQuests)
      <==> r in c && !IsAvailable(r, userXP, completedQuests) && r.id !in claimed
    ensures r in c ==>
      (r in AvailableRewards(c, claimed, userXP, completedQuests)
       || r in ClaimedRewards(c, claimed)
       || r in LockedRewards(c, claimed, userXP, completedQuests))
    ensures !(r in AvailableRewards(c, claimed, userXP, completedQuests) && r in ClaimedRewards(c, claimed))
    ensures !(r in AvailableRewards(c, claimed, userXP, completedQuests) && r in LockedRewards(c, claimed, userXP, completedQuests))
    ensures !(r in ClaimedRewards(c, claimed) && r in LockedRewards(c, claimed, userXP, completedQuests))
  {
  }

  /** More XP or more quests never lock an available reward again. */
  lemma AvailabilityMonotone(r: Reward, userXP: int, completedQuests: int, moreXP: int, moreQuests: int)
    requires userXP <= moreXP && completedQuests <= moreQuests
    ensures IsAvailable(r, userXP, completedQuests) ==> IsAvailable(r, moreXP, moreQuests)
  {
  }

  /** With increasing thresholds the available rewards are a prefix of the
      catalog: entry i is available iff i is below AvailableCount, and with
      nothing claimed the available view is exactly that prefix. */
  lemma AvailableIsPrefix(c: seq<Reward>, userXP: int, completedQuests: int)
    requires ThresholdsIncreasing(c)
    ensures forall i :: 0 <= i < |c| ==>
      (IsAvailable(c[i], userXP, completedQuests) <==> i < AvailableCount(c, userXP, completedQuests))
    ensures AvailableRewards(c, [], userXP, completedQuests) == c[..AvailableCount(c, userXP, completedQuests)]
  {
    var k := AvailableCount(c, userXP, completedQuests);
    var p := (r: Reward) => IsAvailable(r, userXP, completedQuests) && r.id !in [];
    forall i | 0 <= i < |c| ensures p(c[i]) <==> i < k {
      if k < i {
        assert c[k].xpRequired < c[i].xpRequired && c[k].questsRequired < c[i].questsRequired;
      }
    }
    FilterPrefix(c, p, k);
  }

  /** The next reward heads the upcoming-rewards view. */
  lemma NextRewardHeadsLockedView(c: seq<Reward>, claimed: seq<string>, userXP: int, completedQuests: int)
    ensures GetNextReward(c, claimed, userXP, completedQuests).Some?
      <==> LockedRewards(c, claimed, userXP, completedQuests) != []
    ensures GetNextReward(c, claimed, userXP, completedQuests).Some? ==>
      GetNextReward(c, claimed, userXP, completedQuests).value == LockedRewards(c, claimed, userXP, completedQuests)[0]
  {
    FirstIndexHeadsFilter(c, r => IsUpcoming(r, claimed, userXP, completedQuests));
  }

  /** Claiming an available reward of a catalog with unique ids moves it
      from the available view to the claimed view and leaves the upcoming
      view as it was. */
  lemma ClaimMovesReward(c: seq<Reward>, claimed: seq<string>, userXP: int, completedQuests: int, r: Reward)
    requires UniqueIds(c)
    requires r in AvailableRewards(c, claimed, userXP, completedQuests)
    ensures r !in AvailableRewards(c, claimed + [r.id], userXP, completedQuests)
    ensures r in ClaimedRewards(c, claimed + [r.id])
    ensures LockedRewards(c, claimed + [r.id], userXP, completedQuests) == LockedRewards(c, claimed, userXP, completedQuests)
  {
    var before := (x: Reward) => IsUpcoming(x, claimed, userXP, completedQuests);
    var after := (x: Reward) => IsUpcoming(x, claimed + [r.id], userXP, completedQuests);
    forall x | x in c ensures after(x) == before(x) {
      if x.id == r.id {
        var i :| 0 <= i < |c| && c[i] == x;
        var j :| 0 <= j < |c| && c[j] == r;
        assert i == j;
      }
    }
    FilterCongruent(c, after, before);
  }

  /** The profile page passes 2450 XP and 23 quests: welcome, explorer,
      social and master are available and legend is the next reward. */
  lemma ProfileRewards()
    ensures AvailableRewards(Catalog(), [], 2450, 23) == Catalog()[..4]
    ensures GetNextReward(Catalog(), [], 2450, 23) == Some(Catalog()[4])
    ensures Catalog()[4].id == "legend"
  {
    var c := Catalog();
    CatalogWellFormed();
    assert !IsAvailable(c[4], 2450, 23);
    assert AvailableCount(c, 2450, 23) == 4;
    AvailableIsPrefix(c, 2450, 23);
  }

  /** The welcome reward (100 XP, 1 quest) is available at exactly its
      thresholds and locked one XP below. */
  lemma WelcomeThreshold()
    ensures IsAvailable(Catalog()[0], 100, 1)
    ensures !IsAvailable(Catalog()[0], 99, 1)
  {
  }

  /** The component's `claimedRewards` state and its `claimReward` updater;
      the props are fixed for the lifetime of one instance. */
  class RewardSystem {
    const userXP: int
    const completedQuests: int
    var claimedRewards: seq<string>

    constructor (userXP: int, completedQuests: int)
      ensures this.userXP == userXP && this.completedQuests == completedQuests
      ensures claimedRewards == []
    {
      this.userXP := userXP;
      this.completedQuests := completedQuests;
      claimedRewards := [];
    }

    method ClaimReward(rewardId: string)
      modifies this
      ensures claimedRewards == old(claimedRewards) + [rewardId]
    {
      claimedRewards := claimedRewards + [rewardId];
    }
  }
}
