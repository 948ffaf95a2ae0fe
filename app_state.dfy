/** The client-side state of AppStateProvider.tsx: goals with their proofs,
    the coin balance and the garden. The reducers `addGoal`, `removeGoal`
    and `addProof` are functional updates and are functions here;
    `purchaseFlower` searches for a free slot with a loop and is a method.
    Generated ids and timestamps are parameters. */
module AppState {
  import opened Common

  datatype Proof = Proof(id: string, goalId: string, imageDataUrl: string, createdAt: string)

  datatype Goal = Goal(id: string, title: string, createdAt: string, proofs: seq<Proof>)

  datatype FlowerType = Flower1 | Flower2 | Flower3

  datatype GardenItem = GardenItem(id: string, kind: FlowerType, slot: int)

  datatype AppStateShape = AppStateShape(goals: seq<Goal>, coins: int, items: seq<GardenItem>)

  const StartingCoins: int := 20
  const DefaultGoalTitle: string := "Go for a daily walk"
  const ProofReward: int := 5
  const MaxProofsPerGoal: nat := 30

  /** `getInitialState`: the saved state when one could be read, otherwise
      20 coins, the one default goal without proofs, and an empty garden. */
  function InitialState(saved: Option<AppStateShape>, goalId: string, now: string): (s: AppStateShape)
    ensures saved.Some? ==> s == saved.value
    ensures saved.None? ==>
      s.coins == StartingCoins && s.items == []
      && |s.goals| == 1 && s.goals[0].id == goalId
      && s.goals[0].title == DefaultGoalTitle && s.goals[0].proofs == []
  {
    if saved.Some? then saved.value
    else AppStateShape([Goal(goalId, DefaultGoalTitle, now, [])], StartingCoins, [])
  }

  /** `addGoal`: one goal without proofs is appended. */
  function AddGoal(s: AppStateShape, title: string, id: string, now: string): (r: AppStateShape)
    ensures |r.goals| == |s.goals| + 1 && r.goals[..|s.goals|] == s.goals
    ensures r.goals[|s.goals|] == Goal(id, title, now, [])
    ensures r.coins == s.coins && r.items == s.items
  {
    s.(goals := s.goals + [Goal(id, title, now, [])])
  }

  /** `goals.filter(g => g.id !== goalId)` */
  function WithoutGoal(goals: seq<Goal>, goalId: string): (r: seq<Goal>)
    ensures |r| <= |goals|
    ensures forall i :: 0 <= i < |r| ==> r[i].id != goalId && r[i] in goals
    ensures forall g :: g in goals && g.id != goalId ==> g in r
  {
    if goals == [] then []
    else if goals[0].id == goalId then WithoutGoal(goals[1..], goalId)
    else [goals[0]] + WithoutGoal(goals[1..], goalId)
  }

  /** The filter keeps the order: it distributes over concatenation. */
  lemma {:induction false} WithoutGoalAppend(a: seq<Goal>, b: seq<Goal>, goalId: string)
    ensures WithoutGoal(a + b, goalId) == WithoutGoal(a, goalId) + WithoutGoal(b, goalId)
    decreases |a|
  {
    if a == [] {
      assert a + b == b;
    } else {
      assert (a + b)[1..] == a[1..] + b;
      WithoutGoalAppend(a[1..], b, goalId);
    }
  }

  /** Goals without the id are kept as they are. */
  lemma {:induction false} WithoutAbsentGoal(goals: seq<Goal>, goalId: string)
    requires forall i :: 0 <= i < |goals| ==> goals[i].id != goalId
    ensures WithoutGoal(goals, goalId) == goals
    decreases |goals|
  {
    if goals != [] {
      WithoutAbsentGoal(goals[1..], goalId);
    }
  }

  /** `removeGoal`. */
  function RemoveGoal(s: AppStateShape, goalId: string): (r: AppStateShape)
    ensures r.coins == s.coins && r.items == s.items
    ensures forall i :: 0 <= i < |r.goals| ==> r.goals[i].id != goalId
  {
    s.(goals := WithoutGoal(s.goals, goalId))
  }

  /** Removing a goal twice is removing it once. */
  lemma RemoveGoalIdempotent(s: AppStateShape, goalId: string)
    ensures RemoveGoal(RemoveGoal(s, goalId), goalId) == RemoveGoal(s, goalId)
  {
    WithoutAbsentGoal(WithoutGoal(s.goals, goalId), goalId);
  }

  /** Removing a goal just added with a fresh id restores the state. */
  lemma RemoveUndoesAdd(s: AppStateShape, title: string, id: string, now: string)
    requires forall i :: 0 <= i < |s.goals| ==> s.goals[i].id != id
    ensures RemoveGoal(AddGoal(s, title, id, now), id) == s
  {
    WithoutGoalAppend(s.goals, [Goal(id, title, now, [])], id);
    WithoutAbsentGoal(s.goals, id);
    assert WithoutGoal([Goal(id, title, now, [])], id) == [];
  }

  /** `[newProof, ...proofs].slice(0, 30)` */
  function PrependCapped(p: Proof, proofs: seq<Proof>): (r: seq<Proof>)
    ensures |r| == if |proofs| < MaxProofsPerGoal then |proofs| + 1 else MaxProofsPerGoal
    ensures r[0] == p && r[1..] == proofs[..|r| - 1]
  {
    var all := [p] + proofs;
    if |all| <= MaxProofsPerGoal then all else all[..MaxProofsPerGoal]
  }

  /** `addProof`: 5 coins whether or not a goal has the id, and the new
      proof in front of the proofs of each goal with that id. */
  function AddProof(s: AppStateShape, goalId: string, imageDataUrl: string, proofId: string, now: string): (r: AppStateShape)
    ensures r.coins == s.coins + ProofReward && r.items == s.items
    ensures |r.goals| == |s.goals|
    ensures forall i :: 0 <= i < |s.goals| && s.goals[i].id != goalId ==> r.goals[i] == s.goals[i]
    ensures forall i :: 0 <= i < |s.goals| && s.goals[i].id == goalId ==>
      r.goals[i] == s.goals[i].(proofs := PrependCapped(Proof(proofId, goalId, imageDataUrl, now), s.goals[i].proofs))
  {
    var p := Proof(proofId, goalId, imageDataUrl, now);
    s.(coins := s.coins + ProofReward,
       goals := seq(|s.goals|, i requires 0 <= i < |s.goals| =>
         if s.goals[i].id == goalId then s.goals[i].(proofs := PrependCapped(p, s.goals[i].proofs)) else s.goals[i]))
  }

  /** No goal holds more than 30 proofs. */
  predicate ProofsCapped(s: AppStateShape) {
    forall i :: 0 <= i < |s.goals| ==> |s.goals[i].proofs| <= MaxProofsPerGoal
  }

  /** After `addProof` the matching goal's newest proof is the new one, it
      keeps its older proofs newest first up to the cap, and every goal
      stays within 30 proofs. */
  lemma AddProofKeepsCap(s: AppStateShape, goalId: string, imageDataUrl: string, proofId: string, now: string)
    requires ProofsCapped(s)
    ensures var r := AddProof(s, goalId, imageDataUrl, proofId, now);
      ProofsCapped(r)
      && (forall i :: 0 <= i < |s.goals| && s.goals[i].id == goalId ==>
            r.goals[i].proofs[0] == Proof(proofId, goalId, imageDataUrl, now)
            && r.goals[i].proofs[1..] == s.goals[i].proofs[..|r.goals[i].proofs| - 1]
            && |r.goals[i].proofs| == if |s.goals[i].proofs| < MaxProofsPerGoal then |s.goals[i].proofs| + 1 else MaxProofsPerGoal)
  {
  }

  /** Every reducer keeps the cap. */
  lemma ReducersKeepCap(s: AppStateShape, title: string, id: string, now: string)
    requires ProofsCapped(s)
    ensures ProofsCapped(AddGoal(s, title, id, now))
    ensures ProofsCapped(RemoveGoal(s, id))
  {
    var r := RemoveGoal(s, id);
    forall i | 0 <= i < |r.goals| ensures |r.goals[i].proofs| <= MaxProofsPerGoal {
      assert r.goals[i] in s.goals;
    }
  }

  /** The slots the garden uses. */
  function Slots(items: seq<GardenItem>): set<int> {
    set i | 0 <= i < |items| :: items[i].slot
  }

  /** `slot` is the smallest non-negative integer not in `used`. */
  predicate IsSmallestFree(slot: int, used: set<int>) {
    slot >= 0 && slot !in used && forall k :: 0 <= k < slot ==> k in used
  }

  /** There is only one smallest free slot. */
  lemma SmallestFreeIsUnique(a: int, b: int, used: set<int>)
    requires IsSmallestFree(a, used) && IsSmallestFree(b, used)
    ensures a == b
  {
  }

  /** The integers from 0 below `n`. */
  function Range(n: nat): (r: set<int>)
    ensures forall k :: k in r <==> 0 <= k < n
  {
    if n == 0 then {} else Range(n - 1) + {n - 1}
  }

  lemma {:induction false} RangeSize(n: nat)
    ensures |Range(n)| == n
  {
    if n > 0 {
      RangeSize(n - 1);
    }
  }

  /** Every garden item has its own slot. */
  predicate DistinctSlots(items: seq<GardenItem>) {
    forall i, j :: 0 <= i < j < |items| ==> items[i].slot != items[j].slot
  }

  /** `purchaseFlower`: nothing changes when the balance is below the cost;
      otherwise the cost is deducted and one item is appended in the
      smallest free slot. */
  method PurchaseFlower(s: AppStateShape, kind: FlowerType, cost: int, id: string) returns (r: AppStateShape)
    ensures s.coins < cost ==> r == s
    ensures s.coins >= cost ==>
      r.coins == s.coins - cost && r.goals == s.goals
      && |r.items| == |s.items| + 1 && r.items[..|s.items|] == s.items
      && r.items[|s.items|].id == id && r.items[|s.items|].kind == kind
      && IsSmallestFree(r.items[|s.items|].slot, Slots(s.items))
  {
    if s.coins < cost {
      return s;
    }
    var used := Slots(s.items);
    var slot := 0;
    while slot in used
      invariant slot >= 0
      invariant forall k :: 0 <= k < slot ==> k in used
      decreases |used| - slot
    {
      assert Range(slot + 1) <= used;
      SubsetCard(Range(slot + 1), used);
      RangeSize(slot + 1);
      slot := slot + 1;
    }
    r := s.(coins := s.coins - cost, items := s.items + [GardenItem(id, kind, slot)]);
  }

  /** Buying keeps the slots distinct, and never leaves a gap before the
      new one. */
  lemma PurchaseKeepsSlotsDistinct(items: seq<GardenItem>, item: GardenItem)
    requires DistinctSlots(items) && IsSmallestFree(item.slot, Slots(items))
    ensures DistinctSlots(items + [item])
  {
    var r := items + [item];
    forall i, j | 0 <= i < j < |r| ensures r[i].slot != r[j].slot {
      if j == |items| {
        assert r[i].slot in Slots(items) by {
          assert r[i] == items[i];
        }
      } else {
        assert r[i] == items[i] && r[j] == items[j];
      }
    }
  }
}
