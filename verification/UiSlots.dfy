/** Which claim fills each slot of the user interface, whatever order the claims arrive in. */
module UiSlots {
  import opened Primitives

  datatype SlotId = Composer | Conversation | ComposerLeading | ComposerChipsLeft | ComposerChipsRight | Panel

  datatype Claim = Claim(slot: SlotId, plugin: PluginId, defId: string)

  datatype Overrides = Overrides(composer: Option<string>, conversation: Option<string>)

  /** An assignment names the claim that fills its slot. */
  type Assignment = Claim

  predicate IsExclusive(slot: SlotId) {
    slot.Composer? || slot.Conversation?
  }

  function NameOf(slot: SlotId): string {
    match slot
    case Composer => "composer"
    case Conversation => "conversation"
    case ComposerLeading => "composerLeading"
    case ComposerChipsLeft => "composerChipsLeft"
    case ComposerChipsRight => "composerChipsRight"
    case Panel => "panel"
  }

  function RefOf(c: Claim): string {
    c.plugin + "/" + c.defId
  }

  function OverrideFor(overrides: Overrides, slot: SlotId): Option<string> {
    if slot.Composer? then overrides.composer else overrides.conversation
  }

  // ---- sorting ----

  /** Claims are put in order by plugin and definition, assignments by slot before that. */
  datatype Key = ByPlugin | BySlot

  /** `a` may stand before `b`. */
  predicate Before(le: (string, string) -> bool, key: Key, a: Claim, b: Claim) {
    if key.BySlot? && a.slot != b.slot then le(NameOf(a.slot), NameOf(b.slot))
    else if a.plugin != b.plugin then le(a.plugin, b.plugin)
    else le(a.defId, b.defId)
  }

  /** A comparison of names, as the platform's collation gives it; equal only for equal names. */
  ghost predicate TotalOrder(le: (string, string) -> bool) {
    && (forall a, b :: le(a, b) || le(b, a))
    && (forall a, b :: le(a, b) && le(b, a) ==> a == b)
    && (forall a, b, c :: le(a, b) && le(b, c) ==> le(a, c))
  }

  lemma BeforeOrders(le: (string, string) -> bool, key: Key, a: Claim, b: Claim, c: Claim)
    requires TotalOrder(le)
    ensures Before(le, key, a, b) || Before(le, key, b, a)
    ensures Before(le, key, a, b) && Before(le, key, b, c) ==> Before(le, key, a, c)
    ensures (key.BySlot? || a.slot == b.slot) && Before(le, key, a, b) && Before(le, key, b, a) ==> a == b
  {
  }

  ghost predicate Sorted(le: (string, string) -> bool, key: Key, s: seq<Claim>) {
    forall i, j :: 0 <= i < j < |s| ==> Before(le, key, s[i], s[j])
  }

  /** The length of the part of `s` that stays before `x`: later equals do not overtake earlier ones. */
  function PlaceOf(le: (string, string) -> bool, key: Key, s: seq<Claim>, x: Claim): (k: nat)
    ensures k <= |s|
    ensures k > 0 ==> Before(le, key, s[k - 1], x)
    ensures forall j :: k <= j < |s| ==> !Before(le, key, s[j], x)
  {
    if s == [] then 0
    else if Before(le, key, s[|s| - 1], x) then |s|
    else PlaceOf(le, key, s[..|s| - 1], x)
  }

  /** A stable sort. */
  function Sort(le: (string, string) -> bool, key: Key, s: seq<Claim>): seq<Claim> {
    if s == [] then []
    else
      var rest, x := Sort(le, key, s[..|s| - 1]), s[|s| - 1];
      Insert(rest, PlaceOf(le, key, rest, x), x)
  }

  function Insert(rest: seq<Claim>, k: nat, x: Claim): seq<Claim>
    requires k <= |rest|
  {
    rest[..k] + [x] + rest[k..]
  }

  lemma {:induction false} SortSorts(le: (string, string) -> bool, key: Key, s: seq<Claim>)
    requires TotalOrder(le)
    ensures Sorted(le, key, Sort(le, key, s)) && multiset(Sort(le, key, s)) == multiset(s)
  {
    hide Sorted, Before, TotalOrder, Insert;
    if s == [] {
      NothingSorted(le, key);
    } else {
      var rest, x := Sort(le, key, s[..|s| - 1]), s[|s| - 1];
      SortSorts(le, key, s[..|s| - 1]);
      InsertSorts(le, key, rest, x, PlaceOf(le, key, rest, x));
      assert s == s[..|s| - 1] + [x];
    }
  }

  lemma NothingSorted(le: (string, string) -> bool, key: Key)
    ensures Sorted(le, key, [])
  {
  }

  lemma InsertSorts(le: (string, string) -> bool, key: Key, rest: seq<Claim>, x: Claim, k: nat)
    requires TotalOrder(le) && Sorted(le, key, rest) && k <= |rest|
    requires k > 0 ==> Before(le, key, rest[k - 1], x)
    requires forall j :: k <= j < |rest| ==> !Before(le, key, rest[j], x)
    ensures Sorted(le, key, Insert(rest, k, x)) && multiset(Insert(rest, k, x)) == multiset(rest) + multiset{x}
  {
    hide Before, TotalOrder;
    var whole := Insert(rest, k, x);
    forall j | 0 <= j < |rest| ensures if j < k then Before(le, key, rest[j], x) else Before(le, key, x, rest[j]) {
      if j < k - 1 {
        BeforeOrders(le, key, rest[j], rest[k - 1], x);
      } else if j >= k {
        BeforeOrders(le, key, x, rest[j], x);
      }
    }
    forall i, j | 0 <= i < j < |whole| ensures Before(le, key, whole[i], whole[j]) {
      assert whole[i] == (if i < k then rest[i] else if i == k then x else rest[i - 1]);
      assert whole[j] == (if j < k then rest[j] else if j == k then x else rest[j - 1]);
    }
    InsertAdds(rest, k, x);
  }

  lemma InsertAdds(rest: seq<Claim>, k: nat, x: Claim)
    requires k <= |rest|
    ensures multiset(Insert(rest, k, x)) == multiset(rest) + multiset{x}
  {
    assert rest == rest[..k] + rest[k..];
  }

  /** Two sorted lists of the same assignments are one list. */
  lemma {:induction false} SortedIsUnique(le: (string, string) -> bool, a: seq<Claim>, b: seq<Claim>)
    requires TotalOrder(le) && Sorted(le, BySlot, a) && Sorted(le, BySlot, b) && multiset(a) == multiset(b)
    ensures a == b
  {
    hide Sorted, Before, TotalOrder;
    assert |a| == |multiset(a)| == |multiset(b)| == |b|;
    if a != [] {
      SameHead(le, a, b);
      TailSorted(le, a);
      TailSorted(le, b);
      SortedIsUnique(le, a[1..], b[1..]);
      assert a == [a[0]] + a[1..] && b == [b[0]] + b[1..];
    }
  }

  lemma TailSorted(le: (string, string) -> bool, s: seq<Claim>)
    requires Sorted(le, BySlot, s) && s != []
    ensures Sorted(le, BySlot, s[1..]) && multiset(s[1..]) == multiset(s) - multiset{s[0]}
  {
    hide Before;
    assert s == [s[0]] + s[1..];
  }

  lemma SameHead(le: (string, string) -> bool, a: seq<Claim>, b: seq<Claim>)
    requires TotalOrder(le) && Sorted(le, BySlot, a) && Sorted(le, BySlot, b)
    requires multiset(a) == multiset(b) && a != [] && b != []
    ensures a[0] == b[0]
  {
    hide Before, TotalOrder;
    assert a[0] in multiset(b);
    assert b[0] in multiset(a);
    var i :| 0 <= i < |b| && b[i] == a[0];
    var j :| 0 <= j < |a| && a[j] == b[0];
    if i > 0 && j > 0 {
      assert Before(le, BySlot, b[0], b[i]) && Before(le, BySlot, a[0], a[j]);
      BeforeOrders(le, BySlot, a[0], b[0], a[0]);
    }
  }

  // ---- resolving ----

  function OfSlot(claims: seq<Claim>, slot: SlotId): seq<Claim> {
    if claims == [] then []
    else OfSlot(claims[..|claims| - 1], slot) + if claims[|claims| - 1].slot == slot then [claims[|claims| - 1]] else []
  }

  /** The slots claimed, in the order of their first claims. */
  function SlotsOf(claims: seq<Claim>): seq<SlotId> {
    if claims == [] then []
    else
      var slots, last := SlotsOf(claims[..|claims| - 1]), claims[|claims| - 1].slot;
      if last in slots then slots else slots + [last]
  }

  /** Index of the first claim with this reference, or -1. */
  function FindRef(group: seq<Claim>, ref: string): (k: int)
    ensures -1 <= k < |group|
    ensures k >= 0 ==> RefOf(group[k]) == ref
    ensures forall j :: 0 <= j < (if k < 0 then |group| else k) ==> RefOf(group[j]) != ref
  {
    if group == [] then -1
    else if RefOf(group[0]) == ref then 0
    else
      var k := FindRef(group[1..], ref);
      if k < 0 then -1 else k + 1
  }

  /** What one slot's claims, in order, come to. */
  function AssignSlot(group: seq<Claim>, slot: SlotId, overrides: Overrides): seq<Assignment> {
    if !IsExclusive(slot) then group
    else
      var override := OverrideFor(overrides, slot);
      if override.Some? && FindRef(group, override.value) >= 0 then [group[FindRef(group, override.value)]]
      else if group == [] then []
      else [group[0]]
  }

  function AssignAll(ordered: seq<Claim>, slots: seq<SlotId>, overrides: Overrides): seq<Assignment> {
    if slots == [] then []
    else
      var slot := slots[|slots| - 1];
      AssignAll(ordered, slots[..|slots| - 1], overrides) + AssignSlot(OfSlot(ordered, slot), slot, overrides)
  }

  function Resolved(claims: seq<Claim>, overrides: Overrides, le: (string, string) -> bool): seq<Assignment> {
    var ordered := Sort(le, ByPlugin, claims);
    Sort(le, BySlot, AssignAll(ordered, SlotsOf(ordered), overrides))
  }

  method ResolveUiAssignments(claims: seq<Claim>, overrides: Overrides, le: (string, string) -> bool)
    returns (assignments: seq<Assignment>)
    ensures assignments == Resolved(claims, overrides, le)
  {
    hide OfSlot, SlotsOf, Sort, AssignAll, AssignSlot;
    var ordered := Sort(le, ByPlugin, claims);
    NothingGrouped(ordered);
    var bySlot: map<SlotId, seq<Claim>> := map[];
    var slots: seq<SlotId> := [];
    for k := 0 to |ordered|
      invariant slots == SlotsOf(ordered[..k])
      invariant forall slot :: slot in slots <==> slot in bySlot
      invariant forall slot :: slot in bySlot ==> bySlot[slot] == OfSlot(ordered[..k], slot)
      invariant forall slot :: slot !in bySlot ==> OfSlot(ordered[..k], slot) == []
    {
      GroupOneMore(ordered, k);
      var claim := ordered[k];
      if claim.slot !in bySlot {
        bySlot := bySlot[claim.slot := [claim]];
        slots := slots + [claim.slot];
      } else {
        bySlot := bySlot[claim.slot := bySlot[claim.slot] + [claim]];
      }
    }
    assert ordered[..|ordered|] == ordered;
    assignments := [];
    NothingAssigned(ordered, slots, overrides);
    for k := 0 to |slots|
      invariant assignments == AssignAll(ordered, slots[..k], overrides)
    {
      AssignOneMore(ordered, slots, k, overrides);
      assignments := assignments + AssignSlot(bySlot[slots[k]], slots[k], overrides);
    }
    assert slots[..|slots|] == slots;
    assignments := Sort(le, BySlot, assignments);
  }

  lemma NothingGrouped(ordered: seq<Claim>)
    ensures SlotsOf(ordered[..0]) == [] && forall slot :: OfSlot(ordered[..0], slot) == []
  {
  }

  lemma GroupOneMore(ordered: seq<Claim>, k: nat)
    requires k < |ordered|
    ensures var slots := SlotsOf(ordered[..k]);
      SlotsOf(ordered[..k + 1]) == if ordered[k].slot in slots then slots else slots + [ordered[k].slot]
    ensures forall slot :: OfSlot(ordered[..k + 1], slot)
              == OfSlot(ordered[..k], slot) + if ordered[k].slot == slot then [ordered[k]] else []
  {
    assert ordered[..k + 1][..k] == ordered[..k];
  }

  lemma AssignOneMore(ordered: seq<Claim>, slots: seq<SlotId>, k: nat, overrides: Overrides)
    requires k < |slots|
    ensures AssignAll(ordered, slots[..k + 1], overrides)
         == AssignAll(ordered, slots[..k], overrides) + AssignSlot(OfSlot(ordered, slots[k]), slots[k], overrides)
  {
    assert slots[..k + 1][..k] == slots[..k];
  }

  lemma NothingAssigned(ordered: seq<Claim>, slots: seq<SlotId>, overrides: Overrides)
    ensures AssignAll(ordered, slots[..0], overrides) == []
  {
  }

  // ---- what a resolution comes to ----

  /** The claim is least among those of its slot that satisfy the override, if it names any of them. */
  ghost predicate Chosen(claims: seq<Claim>, overrides: Overrides, le: (string, string) -> bool, a: Claim) {
    && a in claims
    && (Pinned(claims, overrides, a.slot) ==> RefOf(a) == OverrideFor(overrides, a.slot).value)
    && forall c :: c in claims && c.slot == a.slot
         && (Pinned(claims, overrides, a.slot) ==> RefOf(c) == OverrideFor(overrides, a.slot).value)
         ==> Before(le, ByPlugin, a, c)
  }

  /** The override names one of the slot's claims. */
  ghost predicate Pinned(claims: seq<Claim>, overrides: Overrides, slot: SlotId) {
    OverrideFor(overrides, slot).Some? &&
    exists c :: c in claims && c.slot == slot && RefOf(c) == OverrideFor(overrides, slot).value
  }

  /** How often an assignment is made: an additive claim as often as it was made, an exclusive one when chosen. */
  ghost function Share(claims: seq<Claim>, overrides: Overrides, le: (string, string) -> bool, a: Claim): nat {
    if !IsExclusive(a.slot) then multiset(claims)[a]
    else if Chosen(claims, overrides, le, a) then 1 else 0
  }

  lemma {:induction false} OfSlotCounts(claims: seq<Claim>, slot: SlotId, c: Claim)
    ensures multiset(OfSlot(claims, slot))[c] == if c.slot == slot then multiset(claims)[c] else 0
  {
    if claims != [] {
      var n := |claims| - 1;
      OfSlotCounts(claims[..n], slot, c);
      assert claims == claims[..n] + [claims[n]];
    }
  }

  lemma InOfSlot(claims: seq<Claim>, slot: SlotId, c: Claim)
    ensures c in OfSlot(claims, slot) <==> c in claims && c.slot == slot
  {
  }

  lemma {:induction false} OfSlotSorted(le: (string, string) -> bool, claims: seq<Claim>, slot: SlotId)
    requires Sorted(le, ByPlugin, claims)
    ensures Sorted(le, ByPlugin, OfSlot(claims, slot))
  {
    if claims != [] {
      var n := |claims| - 1;
      var front := OfSlot(claims[..n], slot);
      OfSlotSorted(le, claims[..n], slot);
      forall i | 0 <= i < |front| ensures Before(le, ByPlugin, front[i], claims[n]) {
        InOfSlot(claims[..n], slot, front[i]);
        var k :| 0 <= k < n && claims[..n][k] == front[i];
        assert Before(le, ByPlugin, claims[k], claims[n]);
      }
    }
  }

  lemma {:induction false} SlotsAreClaimed(claims: seq<Claim>, slot: SlotId)
    ensures slot in SlotsOf(claims) <==> OfSlot(claims, slot) != []
    ensures forall i, j :: 0 <= i < j < |SlotsOf(claims)| ==> SlotsOf(claims)[i] != SlotsOf(claims)[j]
  {
    if claims != [] {
      SlotsAreClaimed(claims[..|claims| - 1], slot);
    }
  }

  lemma AssignSlotStays(group: seq<Claim>, slot: SlotId, overrides: Overrides, a: Claim)
    requires forall c :: c in group ==> c.slot == slot
    ensures a in AssignSlot(group, slot, overrides) ==> a in group && a.slot == slot
  {
  }

  /** Each slot's part is counted once. */
  lemma {:induction false} AssignAllCounts(ordered: seq<Claim>, slots: seq<SlotId>, overrides: Overrides, a: Claim)
    requires forall i, j :: 0 <= i < j < |slots| ==> slots[i] != slots[j]
    ensures multiset(AssignAll(ordered, slots, overrides))[a]
         == if a.slot in slots then multiset(AssignSlot(OfSlot(ordered, a.slot), a.slot, overrides))[a] else 0
  {
    if slots != [] {
      var n := |slots| - 1;
      var slot := slots[n];
      AssignAllCounts(ordered, slots[..n], overrides, a);
      forall c ensures c in OfSlot(ordered, slot) ==> c.slot == slot {
        InOfSlot(ordered, slot, c);
      }
      AssignSlotStays(OfSlot(ordered, slot), slot, overrides, a);
      assert slots == slots[..n] + [slot];
    }
  }

  lemma SlotShare(ordered: seq<Claim>, overrides: Overrides, le: (string, string) -> bool, a: Claim)
    requires TotalOrder(le) && Sorted(le, ByPlugin, ordered)
    ensures multiset(AssignSlot(OfSlot(ordered, a.slot), a.slot, overrides))[a] == Share(ordered, overrides, le, a)
  {
    var group := OfSlot(ordered, a.slot);
    if IsExclusive(a.slot) {
      OfSlotSorted(le, ordered, a.slot);
      forall c ensures c in group <==> c in ordered && c.slot == a.slot {
        InOfSlot(ordered, a.slot, c);
      }
      ExclusiveShare(ordered, group, overrides, le, a);
    } else {
      OfSlotCounts(ordered, a.slot, a);
    }
  }

  lemma ExclusiveShare(ordered: seq<Claim>, group: seq<Claim>, overrides: Overrides, le: (string, string) -> bool,
                       a: Claim)
    requires IsExclusive(a.slot) && TotalOrder(le) && Sorted(le, ByPlugin, group)
    requires forall c :: c in group <==> c in ordered && c.slot == a.slot
    ensures multiset(AssignSlot(group, a.slot, overrides))[a] == if Chosen(ordered, overrides, le, a) then 1 else 0
  {
  }

  lemma ShareIsOrderFree(claims: seq<Claim>, shuffled: seq<Claim>, overrides: Overrides,
                         le: (string, string) -> bool, a: Claim)
    requires multiset(claims) == multiset(shuffled)
    ensures Share(claims, overrides, le, a) == Share(shuffled, overrides, le, a)
  {
    hide Before, TotalOrder;
    forall c ensures c in claims <==> c in shuffled {
      assert c in claims <==> c in multiset(claims);
      assert c in shuffled <==> c in multiset(shuffled);
    }
    assert Pinned(claims, overrides, a.slot) <==> Pinned(shuffled, overrides, a.slot);
  }

  /**
    A resolution is sorted and makes each assignment as often as its share: additive slots
    get every claim as often as it was made, an exclusive slot the claim it pins or its least.
   */
  lemma ResolvedMeaning(claims: seq<Claim>, overrides: Overrides, le: (string, string) -> bool)
    requires TotalOrder(le)
    ensures var r := Resolved(claims, overrides, le);
      && Sorted(le, BySlot, r)
      && forall a :: multiset(r)[a] == Share(claims, overrides, le, a)
  {
    hide Before, AssignSlot, Share, TotalOrder;
    var ordered := Sort(le, ByPlugin, claims);
    SortSorts(le, ByPlugin, claims);
    var all := AssignAll(ordered, SlotsOf(ordered), overrides);
    SortSorts(le, BySlot, all);
    forall a ensures multiset(all)[a] == Share(claims, overrides, le, a) {
      SlotsAreClaimed(ordered, a.slot);
      AssignAllCounts(ordered, SlotsOf(ordered), overrides, a);
      SlotShare(ordered, overrides, le, a);
      ShareIsOrderFree(ordered, claims, overrides, le, a);
      NothingToAssign(ordered, a.slot, overrides);
    }
  }

  lemma NothingToAssign(ordered: seq<Claim>, slot: SlotId, overrides: Overrides)
    ensures OfSlot(ordered, slot) == [] ==> AssignSlot(OfSlot(ordered, slot), slot, overrides) == []
  {
  }

  /** The order in which claims arrive makes no difference. */
  lemma ResolvedIsOrderFree(claims: seq<Claim>, shuffled: seq<Claim>, overrides: Overrides,
                            le: (string, string) -> bool)
    requires TotalOrder(le) && multiset(claims) == multiset(shuffled)
    ensures Resolved(claims, overrides, le) == Resolved(shuffled, overrides, le)
  {
    hide Before, Share, Resolved, TotalOrder;
    ResolvedMeaning(claims, overrides, le);
    ResolvedMeaning(shuffled, overrides, le);
    var r, r' := Resolved(claims, overrides, le), Resolved(shuffled, overrides, le);
    forall a ensures multiset(r)[a] == multiset(r')[a] {
      ShareIsOrderFree(claims, shuffled, overrides, le, a);
    }
    SortedIsUnique(le, r, r');
  }

  /** A claimed exclusive slot gets exactly one assignment; an unclaimed slot gets none. */
  lemma ExclusiveSlotsGetOne(claims: seq<Claim>, overrides: Overrides, le: (string, string) -> bool, slot: SlotId)
    requires TotalOrder(le) && IsExclusive(slot)
    ensures |OfSlot(Resolved(claims, overrides, le), slot)|
         == if exists c :: c in claims && c.slot == slot then 1 else 0
  {
    hide Before, Resolved;
    var r := Resolved(claims, overrides, le);
    var mine := OfSlot(r, slot);
    ResolvedMeaning(claims, overrides, le);
    forall a: Claim ensures multiset(mine)[a] == if a.slot == slot && Chosen(claims, overrides, le, a) then 1 else 0 {
      OfSlotCounts(r, slot, a);
    }
    assert |mine| == |multiset(mine)|;
    if exists c :: c in claims && c.slot == slot {
      var a := SomeChosen(claims, overrides, le, slot);
      forall b: Claim ensures multiset(mine)[b] == multiset{a}[b] {
        if b.slot == slot && Chosen(claims, overrides, le, b) {
          BeforeOrders(le, ByPlugin, a, b, a);
        }
      }
      assert multiset(mine) == multiset{a};
    } else {
      assert multiset(mine) == multiset{};
    }
  }

  lemma SomeChosen(claims: seq<Claim>, overrides: Overrides, le: (string, string) -> bool,
                   slot: SlotId) returns (a: Claim)
    requires TotalOrder(le) && IsExclusive(slot) && exists c :: c in claims && c.slot == slot
    ensures a.slot == slot && Chosen(claims, overrides, le, a)
  {
    hide Before, Share, TotalOrder;
    var ordered := Sort(le, ByPlugin, claims);
    SortSorts(le, ByPlugin, claims);
    var c :| c in claims && c.slot == slot;
    assert c in multiset(claims) && c in multiset(ordered);
    InOfSlot(ordered, slot, c);
    var group := OfSlot(ordered, slot);
    a := AssignSlot(group, slot, overrides)[0];
    assert a in group;
    InOfSlot(ordered, slot, a);
    assert a in multiset(AssignSlot(group, slot, overrides));
    SlotShare(ordered, overrides, le, a);
    ShareIsOrderFree(ordered, claims, overrides, le, a);
    ShareOfExclusive(claims, overrides, le, a);
  }

  lemma ShareOfExclusive(claims: seq<Claim>, overrides: Overrides, le: (string, string) -> bool, a: Claim)
    requires IsExclusive(a.slot)
    ensures Share(claims, overrides, le, a) > 0 <==> Chosen(claims, overrides, le, a)
  {
  }

  /** An override that names a claim of the composer, or of the conversation, fills that slot with it. */
  lemma OverrideFills(claims: seq<Claim>, overrides: Overrides, le: (string, string) -> bool, c: Claim, a: Assignment)
    requires TotalOrder(le) && c in claims
    requires (c.slot.Composer? && overrides.composer == Some(c.plugin + "/" + c.defId))
          || (c.slot.Conversation? && overrides.conversation == Some(c.plugin + "/" + c.defId))
    requires a in Resolved(claims, overrides, le) && a.slot == c.slot
    ensures a in claims && a.plugin + "/" + a.defId == c.plugin + "/" + c.defId
  {
    hide Before, Resolved, TotalOrder;
    ResolvedMeaning(claims, overrides, le);
    assert a in multiset(Resolved(claims, overrides, le));
  }

  /** One that names none of them, or none at all, leaves the slot to its least claim by plugin and then definition. */
  lemma LeastFills(claims: seq<Claim>, overrides: Overrides, le: (string, string) -> bool, a: Assignment, c: Claim)
    requires TotalOrder(le) && IsExclusive(a.slot) && !Pinned(claims, overrides, a.slot)
    requires a in Resolved(claims, overrides, le) && c in claims && c.slot == a.slot
    ensures a in claims && if a.plugin != c.plugin then le(a.plugin, c.plugin) else le(a.defId, c.defId)
  {
    hide Resolved, TotalOrder;
    ResolvedMeaning(claims, overrides, le);
    assert a in multiset(Resolved(claims, overrides, le));
  }

  /** Assignments come by the name of their slot, within a slot by plugin, and of one plugin by definition. */
  lemma ResolvedInOrder(claims: seq<Claim>, overrides: Overrides, le: (string, string) -> bool, i: nat, j: nat)
    requires TotalOrder(le) && i < j < |Resolved(claims, overrides, le)|
    ensures var a, b := Resolved(claims, overrides, le)[i], Resolved(claims, overrides, le)[j];
      && le(NameOf(a.slot), NameOf(b.slot))
      && (a.slot == b.slot ==> le(a.plugin, b.plugin))
      && (a.slot == b.slot && a.plugin == b.plugin ==> le(a.defId, b.defId))
  {
    hide Resolved;
    ResolvedMeaning(claims, overrides, le);
    var a, b := Resolved(claims, overrides, le)[i], Resolved(claims, overrides, le)[j];
    assert Before(le, BySlot, a, b);
    assert le(NameOf(a.slot), NameOf(a.slot)) && le(a.plugin, a.plugin);
  }
}
