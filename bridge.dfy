/**
 The sequential bookkeeping of `dali2mqtt/dali2mqtt.py`: the scan of short
 addresses, the decoding of group membership, the linking of groups and
 members, the brightness and switch command handlers and the refresh of
 the lamps associated with a lamp. Publishing is appending to `outbox`.
 */
module Bridge {
  import opened Dali
  import opened Discovery
  import opened LampController

  predicate Distinct<T(==)>(s: seq<T>)
  {
    forall i, j :: 0 <= i < j < |s| ==> s[i] != s[j]
  }

  // ---------------------------------------------------------------------
  // dali_scan

  /** The reply to QUERY CONTROL GEAR PRESENT, or the DALIError it raised. */
  datatype PresenceAnswer = YesNo(present: bool) | OtherResponse | DaliError

  /** The addresses below `limit` that answered yes, in the order probed. */
  function Found(probe: nat -> PresenceAnswer, limit: nat): seq<nat>
  {
    if limit == 0 then []
    else Found(probe, limit - 1) + (if probe(limit - 1) == YesNo(true) then [limit - 1] else [])
  }

  lemma {:induction false} FoundSpec(probe: nat -> PresenceAnswer, limit: nat)
    ensures forall a: nat :: a in Found(probe, limit) <==> a < limit && probe(a) == YesNo(true)
    ensures forall i, j :: 0 <= i < j < |Found(probe, limit)| ==>
              Found(probe, limit)[i] < Found(probe, limit)[j]
  {
    if limit > 0 {
      var prev := Found(probe, limit - 1);
      FoundSpec(probe, limit - 1);
      assert forall i :: 0 <= i < |prev| ==> prev[i] in prev;
    }
  }

  /** The probing loop of `dali_scan` over the addresses `0 .. limit - 1`. */
  method ScanAddresses(probe: nat -> PresenceAnswer, limit: nat) returns (lamps: seq<nat>)
    ensures lamps == Found(probe, limit)
  {
    lamps := [];
    var a := 0;
    while a < limit
      invariant a <= limit
      invariant lamps == Found(probe, a)
    {
      var present := probe(a);
      if present.YesNo? && present.present {
        lamps := lamps + [a];
      }
      a := a + 1;
    }
  }

  /** `range(0, 63)`: the scan as written stops before short address 63. */
  const ScannedAddressCount: nat := 63

  /**
   `dali_scan` as written: an ascending list of exactly the addresses in
   `0 .. 62` that answered yes; a DALIError or another reply skips it.
   */
  method DaliScan(probe: nat -> PresenceAnswer) returns (lamps: seq<nat>)
    ensures forall i, j :: 0 <= i < j < |lamps| ==> lamps[i] < lamps[j]
    ensures forall a: nat :: a in lamps <==> a < ScannedAddressCount && probe(a) == YesNo(true)
  {
    lamps := ScanAddresses(probe, ScannedAddressCount);
    FoundSpec(probe, ScannedAddressCount);
  }

  /** The scan over every short address `0 .. 63`. */
  method DaliScanAll(probe: nat -> PresenceAnswer) returns (lamps: seq<nat>)
    ensures forall i, j :: 0 <= i < j < |lamps| ==> lamps[i] < lamps[j]
    ensures forall a: nat :: a in lamps <==> a < ShortAddressCount && probe(a) == YesNo(true)
  {
    lamps := ScanAddresses(probe, ShortAddressCount);
    FoundSpec(probe, ShortAddressCount);
  }

  /** A ballast at short address 63 that answers yes is missed by the scan as written. */
  lemma ScanMissesAddress63(probe: nat -> PresenceAnswer)
    requires probe(63) == YesNo(true)
    ensures 63 !in Found(probe, ScannedAddressCount)
    ensures 63 in Found(probe, ShortAddressCount)
  {
    FoundSpec(probe, ScannedAddressCount);
  }

  // ---------------------------------------------------------------------
  // scan_groups

  /**
   The two replies of QUERY GROUPS 0-7 and QUERY GROUPS 8-15 for a lamp, or
   the exception either query raised.
   */
  datatype GroupAnswer = Masks(low: bv8, high: bv8) | QueryFailed

  /** Bit `i` of an 8-bit mask. */
  predicate Bit(m: bv8, i: nat)
    requires i < 8
  {
    (m >> i) & 1 == 1
  }

  /** Both ways the scan tests a bit select the same bit. */
  lemma BitTests(m: bv8, i: nat)
    requires i < 8
    ensures (m & ((1 as bv8) << i) == (1 as bv8) << i) == Bit(m, i)
    ensures (m & ((1 as bv8) << i) != 0) == Bit(m, i)
  {
  }

  /** Whether the replies `low` (groups 0-7) and `high` (groups 8-15) put a lamp in group `g`. */
  predicate MaskBit(low: bv8, high: bv8, g: nat)
  {
    g < GroupCount && (if g < 8 then Bit(low, g) else Bit(high, g - 8))
  }

  /**
   Whether `scan_groups` files `lamp` under group `g`: the lamp exists, its
   queries answered, and the bit for `g` is set in the mask covering `g`.
   */
  predicate InGroup(lamp: Lamp?, answer: Lamp -> GroupAnswer, g: nat)
  {
    lamp != null && answer(lamp).Masks? && MaskBit(answer(lamp).low, answer(lamp).high, g)
  }

  /** The lamps of `lamps` in group `g`, in input order. */
  function Members(lamps: seq<Lamp?>, answer: Lamp -> GroupAnswer, g: nat): seq<Lamp>
  {
    if lamps == [] then []
    else
      var last := lamps[|lamps| - 1];
      Members(lamps[..|lamps| - 1], answer, g) + (if InGroup(last, answer, g) then [last] else [])
  }

  /** The positions in `lamps` of the members of group `g`, in increasing order. */
  function MemberPositions(lamps: seq<Lamp?>, answer: Lamp -> GroupAnswer, g: nat): seq<nat>
  {
    if lamps == [] then []
    else
      MemberPositions(lamps[..|lamps| - 1], answer, g) +
      (if InGroup(lamps[|lamps| - 1], answer, g) then [|lamps| - 1] else [])
  }

  /** A lamp is a member of `g` exactly when it occurs in the input and is in `g`. */
  lemma {:induction false} MembersSpec(lamps: seq<Lamp?>, answer: Lamp -> GroupAnswer, g: nat)
    ensures forall l: Lamp :: l in Members(lamps, answer, g) <==> l in lamps && InGroup(l, answer, g)
  {
    if lamps != [] {
      MembersSpec(lamps[..|lamps| - 1], answer, g);
      assert lamps == lamps[..|lamps| - 1] + [lamps[|lamps| - 1]];
    }
  }

  /**
   The members of `g` are taken from the input in input order: the k-th
   member is the input at the k-th of a strictly increasing list of positions.
   */
  lemma {:induction false} MembersInInputOrder(lamps: seq<Lamp?>, answer: Lamp -> GroupAnswer, g: nat)
    ensures |MemberPositions(lamps, answer, g)| == |Members(lamps, answer, g)|
    ensures forall k :: 0 <= k < |MemberPositions(lamps, answer, g)| ==>
              MemberPositions(lamps, answer, g)[k] < |lamps| &&
              Members(lamps, answer, g)[k] == lamps[MemberPositions(lamps, answer, g)[k]]
    ensures forall i, j :: 0 <= i < j < |MemberPositions(lamps, answer, g)| ==>
              MemberPositions(lamps, answer, g)[i] < MemberPositions(lamps, answer, g)[j]
  {
    if lamps != [] {
      MembersInInputOrder(lamps[..|lamps| - 1], answer, g);
    }
  }

  /** No lamp occurs twice in `lamps`; `None` may. */
  predicate DistinctLamps(lamps: seq<Lamp?>)
  {
    forall i, j :: 0 <= i < j < |lamps| && lamps[i] != null ==> lamps[i] != lamps[j]
  }

  /** Distinct lamps in the input make each group's member list duplicate-free. */
  lemma {:induction false} MembersDistinct(lamps: seq<Lamp?>, answer: Lamp -> GroupAnswer, g: nat)
    requires DistinctLamps(lamps)
    ensures Distinct(Members(lamps, answer, g))
  {
    if lamps != [] {
      var init := lamps[..|lamps| - 1];
      var last := lamps[|lamps| - 1];
      assert DistinctLamps(init);
      MembersDistinct(init, answer, g);
      MembersSpec(init, answer, g);
      if last != null {
        assert last !in init;
      }
    }
  }

  /** Only the sixteen DALI groups can have members. */
  lemma {:induction false} MembersOnlyOfGroups(lamps: seq<Lamp?>, answer: Lamp -> GroupAnswer, g: nat)
    requires Members(lamps, answer, g) != []
    ensures g < GroupCount
  {
    MembersSpec(lamps, answer, g);
    var l := Members(lamps, answer, g)[0];
    assert InGroup(l, answer, g);
  }

  /** The position in `lamps` of the first member of group `g`, or 0 when it has none. */
  function FirstPosition(lamps: seq<Lamp?>, answer: Lamp -> GroupAnswer, g: nat): nat
  {
    if lamps == [] then 0
    else
      var init := lamps[..|lamps| - 1];
      if Members(init, answer, g) == [] && InGroup(lamps[|lamps| - 1], answer, g) then |lamps| - 1
      else FirstPosition(init, answer, g)
  }

  /** The first member of a group with members is in the group, and no lamp before it is. */
  lemma {:induction false} FirstPositionSpec(lamps: seq<Lamp?>, answer: Lamp -> GroupAnswer, g: nat)
    requires Members(lamps, answer, g) != []
    ensures FirstPosition(lamps, answer, g) < |lamps|
    ensures InGroup(lamps[FirstPosition(lamps, answer, g)], answer, g)
    ensures forall k :: 0 <= k < FirstPosition(lamps, answer, g) ==> !InGroup(lamps[k], answer, g)
  {
    var init := lamps[..|lamps| - 1];
    if Members(init, answer, g) != [] {
      FirstPositionSpec(init, answer, g);
      assert forall k :: 0 <= k < |init| ==> lamps[k] == init[k];
    } else {
      MembersSpec(init, answer, g);
      forall k | 0 <= k < |lamps| - 1 ensures !InGroup(lamps[k], answer, g) {
        assert lamps[k] == init[k] && init[k] in init;
      }
    }
  }

  /**
   `scan_groups` adds key `g` before key `h`: the first member of `g` comes
   earlier in the input, or both have the same first member and its bit
   loop reaches `g` first.
   */
  predicate AddedBefore(lamps: seq<Lamp?>, answer: Lamp -> GroupAnswer, g: nat, h: nat)
  {
    var p, q := FirstPosition(lamps, answer, g), FirstPosition(lamps, answer, h);
    p < q || (p == q && Rank(g) < Rank(h))
  }

  /** One more lamp keeps the first member of a group that had one, which comes before that lamp. */
  lemma FirstPositionKept(lamps: seq<Lamp?>, answer: Lamp -> GroupAnswer, k: nat, g: nat)
    requires k < |lamps| && Members(lamps[..k], answer, g) != []
    ensures FirstPosition(lamps[..k + 1], answer, g) == FirstPosition(lamps[..k], answer, g) < k
  {
    assert lamps[..k + 1][..k] == lamps[..k];
    FirstPositionSpec(lamps[..k], answer, g);
  }

  /** The lamp that gives a group its first member is that group's first member. */
  lemma FirstPositionNew(lamps: seq<Lamp?>, answer: Lamp -> GroupAnswer, k: nat, g: nat)
    requires k < |lamps| && Members(lamps[..k], answer, g) == [] && Members(lamps[..k + 1], answer, g) != []
    ensures FirstPosition(lamps[..k + 1], answer, g) == k
  {
    assert lamps[..k + 1][..k] == lamps[..k];
  }

  /**
   The key listing of `scan_groups` stays in the order keys were added when
   the lamp at `k` appends its new groups, lowest rank first.
   */
  lemma OrderStep(lamps: seq<Lamp?>, answer: Lamp -> GroupAnswer, k: nat, order: seq<nat>, order': seq<nat>)
    requires k < |lamps|
    requires forall g: nat :: g in order <==> Members(lamps[..k], answer, g) != []
    requires forall g: nat :: g in order' <==> Members(lamps[..k + 1], answer, g) != []
    requires Appended(order, order', 0, GroupCount)
    requires forall g :: g in order'[|order|..] ==> g !in order
    requires forall a, b :: 0 <= a < b < |order| ==> AddedBefore(lamps[..k], answer, order[a], order[b])
    ensures forall a, b :: 0 <= a < b < |order'| ==> AddedBefore(lamps[..k + 1], answer, order'[a], order'[b])
  {
    forall a, b | 0 <= a < b < |order'|
      ensures AddedBefore(lamps[..k + 1], answer, order'[a], order'[b])
    {
      var g, h := order'[a], order'[b];
      assert g in order' && h in order';
      if b < |order| {
        assert g == order'[..|order|][a] == order[a];
        assert h == order'[..|order|][b] == order[b];
        FirstPositionKept(lamps, answer, k, g);
        FirstPositionKept(lamps, answer, k, h);
      } else {
        assert h == order'[|order|..][b - |order|];
        FirstPositionNew(lamps, answer, k, h);
        if a < |order| {
          assert g == order'[..|order|][a] == order[a];
          FirstPositionKept(lamps, answer, k, g);
        } else {
          assert g == order'[|order|..][a - |order|];
          FirstPositionNew(lamps, answer, k, g);
        }
      }
    }
  }

  /** The list under key `g`, or the empty list for a missing key. */
  function Get(groups: map<nat, seq<Lamp>>, g: nat): seq<Lamp>
  {
    if g in groups then groups[g] else []
  }

  /** The bit position of group `g` within its 8-bit mask. */
  function Low(g: nat): nat
  {
    if g < 8 then g else g - 8
  }

  /**
   `scan_groups`: group `g` is a key exactly when some lamp is in it, and
   holds exactly the lamps in it, in input order. A lamp that is `None` or
   whose group query raised is in no group. `order` lists the keys once
   each, in the order they were added.
   */
  method ScanGroups(lamps: seq<Lamp?>, answer: Lamp -> GroupAnswer)
    returns (groups: map<nat, seq<Lamp>>, order: seq<nat>)
    ensures forall g: nat :: g in groups <==> Members(lamps, answer, g) != []
    ensures forall g :: g in groups ==> groups[g] == Members(lamps, answer, g)
    ensures forall g :: g in groups <==> g in order
    ensures Distinct(order)
    ensures forall a, b :: 0 <= a < b < |order| ==> AddedBefore(lamps, answer, order[a], order[b])
  {
    groups, order := map[], [];
    var k := 0;
    while k < |lamps|
      invariant 0 <= k <= |lamps|
      invariant forall g: nat :: g in groups <==> Members(lamps[..k], answer, g) != []
      invariant forall g :: g in groups ==> groups[g] == Members(lamps[..k], answer, g)
      invariant forall g :: g in groups <==> g in order
      invariant Distinct(order)
      invariant forall a, b :: 0 <= a < b < |order| ==> AddedBefore(lamps[..k], answer, order[a], order[b])
    {
      MembersStep(lamps, answer, k);
      var order0 := order;
      groups, order := ScanLamp(groups, order, lamps[k], answer);
      OrderStep(lamps, answer, k, order0, order);
      k := k + 1;
    }
    assert lamps[..k] == lamps;
  }

  /** One lamp of `scan_groups`: both queries, then the bit loop, unless a query raised. */
  method ScanLamp(groups: map<nat, seq<Lamp>>, order: seq<nat>, lamp: Lamp?, answer: Lamp -> GroupAnswer)
    returns (groups': map<nat, seq<Lamp>>, order': seq<nat>)
    requires forall g :: g in groups <==> g in order
    requires Distinct(order)
    ensures forall g: nat :: g in groups' <==> g in groups || InGroup(lamp, answer, g)
    ensures forall g :: g in groups' ==>
              groups'[g] == Get(groups, g) + (if InGroup(lamp, answer, g) then [lamp] else [])
    ensures forall g :: g in groups' <==> g in order'
    ensures Distinct(order')
    ensures Appended(order, order', 0, GroupCount)
    ensures forall g :: g in order'[|order|..] ==> g !in groups
  {
    groups', order' := groups, order;
    if lamp != null && answer(lamp).Masks? {
      groups', order' := FileLamp(groups, order, lamp, answer(lamp).low, answer(lamp).high);
    } else {
      assert order'[..|order|] == order;
    }
  }

  lemma MembersStep(lamps: seq<Lamp?>, answer: Lamp -> GroupAnswer, k: nat)
    requires k < |lamps|
    ensures forall g :: Members(lamps[..k + 1], answer, g)
                     == Members(lamps[..k], answer, g) + (if InGroup(lamps[k], answer, g) then [lamps[k]] else [])
  {
    assert lamps[..k + 1][..k] == lamps[..k];
  }

  /**
   The dictionary of `scan_groups` together with the order its keys were
   added in, which is the order `groups.items()` later yields them.
   */
  datatype GroupIndex = GroupIndex(groups: map<nat, seq<Lamp>>, order: seq<nat>)

  /** `order` lists the keys of `groups`, each once. */
  ghost predicate Listed(ix: GroupIndex)
  {
    (forall g :: g in ix.groups <==> g in ix.order) && Distinct(ix.order)
  }

  /** `if g not in groups: groups[g] = []` followed by `groups[g].append(lamp)`. */
  function Add(ix: GroupIndex, g: nat, lamp: Lamp): GroupIndex
  {
    GroupIndex(ix.groups[g := Get(ix.groups, g) + [lamp]],
               if g in ix.groups then ix.order else ix.order + [g])
  }

  /** Round `i` of the bit loop: bit `i` of `group1` files under `i`, of `group2` under `i + 8`. */
  function Round(ix: GroupIndex, lamp: Lamp, group1: bv8, group2: bv8, i: nat): GroupIndex
    requires i < 8
  {
    var mid := if Bit(group1, i) then Add(ix, i, lamp) else ix;
    if Bit(group2, i) then Add(mid, i + 8, lamp) else mid
  }

  /** The index after the first `i` rounds of the bit loop for one lamp with masks `group1`, `group2`. */
  function Filing(ix: GroupIndex, lamp: Lamp, group1: bv8, group2: bv8, i: nat): GroupIndex
    requires i <= 8
  {
    if i == 0 then ix else Round(Filing(ix, lamp, group1, group2, i - 1), lamp, group1, group2, i - 1)
  }

  /** The groups round `i` files the lamp under. */
  predicate RoundPicks(group1: bv8, group2: bv8, i: nat, g: nat)
    requires i < 8
  {
    (g == i && Bit(group1, i)) || (g == i + 8 && Bit(group2, i))
  }

  lemma RoundSpec(ix: GroupIndex, lamp: Lamp, group1: bv8, group2: bv8, i: nat)
    requires i < 8 && Listed(ix)
    ensures Listed(Round(ix, lamp, group1, group2, i))
    ensures forall g: nat :: g in Round(ix, lamp, group1, group2, i).groups <==>
              g in ix.groups || RoundPicks(group1, group2, i, g)
    ensures forall g :: g in Round(ix, lamp, group1, group2, i).groups ==>
              Round(ix, lamp, group1, group2, i).groups[g] ==
              Get(ix.groups, g) + (if RoundPicks(group1, group2, i, g) then [lamp] else [])
  {
    var mid := if Bit(group1, i) then Add(ix, i, lamp) else ix;
    if Bit(group1, i) {
      AddSpec(ix, i, lamp);
    }
    if Bit(group2, i) {
      AddSpec(mid, i + 8, lamp);
    }
  }

  /** Adding keeps the key listing and changes the one list it appends to. */
  lemma AddSpec(ix: GroupIndex, g: nat, lamp: Lamp)
    requires Listed(ix)
    ensures Listed(Add(ix, g, lamp))
    ensures forall h: nat :: h in Add(ix, g, lamp).groups <==> h in ix.groups || h == g
    ensures forall h :: h in Add(ix, g, lamp).groups ==>
              Add(ix, g, lamp).groups[h] == Get(ix.groups, h) + (if h == g then [lamp] else [])
  {
    var r := Add(ix, g, lamp);
    if g !in ix.groups {
      assert g !in ix.order;
      forall i, j | 0 <= i < j < |r.order| ensures r.order[i] != r.order[j] {
        if j == |ix.order| {
          assert r.order[i] == ix.order[i] && ix.order[i] in ix.order;
        }
      }
    }
  }

  /** Whether group `g` is selected by the masks and handled by the first `i` bits. */
  predicate Selected(group1: bv8, group2: bv8, g: nat, i: nat)
  {
    MaskBit(group1, group2, g) && Low(g) < i
  }

  /**
   After `i` rounds the lamp is appended under exactly the selected groups
   of the first `i` bits, and the keys stay listed once each.
   */
  lemma {:induction false} FilingSpec(ix: GroupIndex, lamp: Lamp, group1: bv8, group2: bv8, i: nat)
    requires i <= 8 && Listed(ix)
    ensures Listed(Filing(ix, lamp, group1, group2, i))
    ensures forall g: nat :: g in Filing(ix, lamp, group1, group2, i).groups <==>
              g in ix.groups || Selected(group1, group2, g, i)
    ensures forall g :: g in Filing(ix, lamp, group1, group2, i).groups ==>
              Filing(ix, lamp, group1, group2, i).groups[g] ==
              Get(ix.groups, g) + (if Selected(group1, group2, g, i) then [lamp] else [])
  {
    if i > 0 {
      FilingSpec(ix, lamp, group1, group2, i - 1);
      FilingStep(ix, Filing(ix, lamp, group1, group2, i - 1), lamp, group1, group2, i - 1);
    }
  }

  /** Round `i` turns the index after `i` rounds into the index after `i + 1`. */
  lemma FilingStep(ix: GroupIndex, prev: GroupIndex, lamp: Lamp, group1: bv8, group2: bv8, i: nat)
    requires i < 8 && Listed(prev)
    requires forall g: nat :: g in prev.groups <==> g in ix.groups || Selected(group1, group2, g, i)
    requires forall g :: g in prev.groups ==>
               prev.groups[g] == Get(ix.groups, g) + (if Selected(group1, group2, g, i) then [lamp] else [])
    ensures Listed(Round(prev, lamp, group1, group2, i))
    ensures forall g: nat :: g in Round(prev, lamp, group1, group2, i).groups <==>
              g in ix.groups || Selected(group1, group2, g, i + 1)
    ensures forall g :: g in Round(prev, lamp, group1, group2, i).groups ==>
              Round(prev, lamp, group1, group2, i).groups[g] ==
              Get(ix.groups, g) + (if Selected(group1, group2, g, i + 1) then [lamp] else [])
  {
    var r := Round(prev, lamp, group1, group2, i);
    RoundSpec(prev, lamp, group1, group2, i);
    SelectedStep(group1, group2, i);
    forall g | g in r.groups
      ensures r.groups[g] == Get(ix.groups, g) + (if Selected(group1, group2, g, i + 1) then [lamp] else [])
    {
      if RoundPicks(group1, group2, i, g) {
        assert !Selected(group1, group2, g, i);
      }
    }
  }

  /** Bit `i` adds exactly the groups `i` and `i + 8`, when their bits are set. */
  lemma SelectedStep(group1: bv8, group2: bv8, i: nat)
    requires i < 8
    ensures forall g: nat :: Selected(group1, group2, g, i + 1) <==>
              Selected(group1, group2, g, i) ||
              (g == i && Bit(group1, i)) || (g == i + 8 && Bit(group2, i))
  {
    forall g: nat
      ensures Selected(group1, group2, g, i + 1) <==>
              Selected(group1, group2, g, i) ||
              (g == i && Bit(group1, i)) || (g == i + 8 && Bit(group2, i))
    {
      if g < 8 {
        assert Low(g) == g;
      } else {
        assert Low(g) == g - 8;
      }
    }
  }

  /**
   The position at which the bit loop of one lamp reaches group `g`: round
   `i` tests group `i` and then group `i + 8`.
   */
  function Rank(g: nat): nat
  {
    if g < 8 then 2 * g else 2 * (g - 8) + 1
  }

  /**
   `order'` is `order` followed by keys of strictly increasing rank, every
   rank at least `lo` and below `hi`.
   */
  predicate Appended(order: seq<nat>, order': seq<nat>, lo: nat, hi: nat)
  {
    |order| <= |order'| && order'[..|order|] == order &&
    (forall k :: |order| <= k < |order'| ==> lo <= Rank(order'[k]) < hi) &&
    (forall a, b :: |order| <= a < b < |order'| ==> Rank(order'[a]) < Rank(order'[b]))
  }

  /** Adding under `g` lists at most the key `g`, after the keys listed already. */
  lemma AddOrder(ix: GroupIndex, g: nat, lamp: Lamp)
    ensures Appended(ix.order, Add(ix, g, lamp).order, Rank(g), Rank(g) + 1)
  {
    assert ix.order[..|ix.order|] == ix.order;
    assert (ix.order + [g])[..|ix.order|] == ix.order;
  }

  /** Round `i` lists at most the keys `i` and `i + 8`, in that order, after the keys listed already. */
  lemma RoundOrder(ix: GroupIndex, lamp: Lamp, group1: bv8, group2: bv8, i: nat)
    requires i < 8
    ensures Appended(ix.order, Round(ix, lamp, group1, group2, i).order, 2 * i, 2 * i + 2)
  {
    AddsOrder(ix, lamp, i, Bit(group1, i), Bit(group2, i));
  }

  /** Round `i` with the outcomes `first` and `second` of its two bit tests. */
  lemma AddsOrder(ix: GroupIndex, lamp: Lamp, i: nat, first: bool, second: bool)
    requires i < 8
    ensures var mid := if first then Add(ix, i, lamp) else ix;
            Appended(ix.order, (if second then Add(mid, i + 8, lamp) else mid).order, 2 * i, 2 * i + 2)
  {
    var mid := if first then Add(ix, i, lamp) else ix;
    var r := if second then Add(mid, i + 8, lamp) else mid;
    assert Rank(i) == 2 * i && Rank(i + 8) == 2 * i + 1;
    if first {
      AddOrder(ix, i, lamp);
    } else {
      assert ix.order[..|ix.order|] == ix.order;
    }
    if second {
      AddOrder(mid, i + 8, lamp);
    } else {
      assert mid.order[..|mid.order|] == mid.order;
    }
    AppendedTrans(ix.order, mid.order, r.order, 2 * i, 2 * i + 1, 2 * i + 2);
  }

  /** Extensions by ranks in `[lo, mid)` and then in `[mid, hi)` make one extension by ranks in `[lo, hi)`. */
  lemma AppendedTrans(o1: seq<nat>, o2: seq<nat>, o3: seq<nat>, lo: nat, mid: nat, hi: nat)
    requires lo <= mid <= hi && Appended(o1, o2, lo, mid) && Appended(o2, o3, mid, hi)
    ensures Appended(o1, o3, lo, hi)
  {
    assert o3[..|o1|] == o3[..|o2|][..|o1|];
    forall k | |o1| <= k < |o3| ensures lo <= Rank(o3[k]) < hi {
      if k < |o2| {
        assert o3[k] == o3[..|o2|][k];
      }
    }
    forall a, b | |o1| <= a < b < |o3| ensures Rank(o3[a]) < Rank(o3[b]) {
      if b < |o2| {
        assert o3[a] == o2[a] && o3[b] == o2[b];
      } else if a < |o2| {
        assert o3[a] == o2[a];
      }
    }
  }

  /**
   The first `i` rounds keep the keys listed so far and list the new ones
   in the order the bit loop reaches them: by increasing rank, each below `2 * i`.
   */
  lemma {:induction false} FilingOrder(ix: GroupIndex, lamp: Lamp, group1: bv8, group2: bv8, i: nat)
    requires i <= 8
    ensures Appended(ix.order, Filing(ix, lamp, group1, group2, i).order, 0, 2 * i)
  {
    if i == 0 {
      assert ix.order[..|ix.order|] == ix.order;
    } else {
      var prev := Filing(ix, lamp, group1, group2, i - 1);
      FilingOrder(ix, lamp, group1, group2, i - 1);
      RoundOrder(prev, lamp, group1, group2, i - 1);
      AppendedTrans(ix.order, prev.order, Round(prev, lamp, group1, group2, i - 1).order,
                    0, 2 * (i - 1), 2 * i);
    }
  }

  /** A key listed after the old keys of a duplicate-free listing was not a key before. */
  lemma NewKeysFresh(groups: map<nat, seq<Lamp>>, order: seq<nat>, order': seq<nat>)
    requires forall g :: g in groups <==> g in order
    requires |order| <= |order'| && order'[..|order|] == order && Distinct(order')
    ensures forall g :: g in order'[|order|..] ==> g !in groups
  {
    forall g | g in order'[|order|..] ensures g !in groups {
      var c :| 0 <= c < |order'| - |order| && order'[|order|..][c] == g;
      assert order'[|order| + c] == g;
      forall a | 0 <= a < |order| ensures order[a] != g {
        assert order[a] == order'[..|order|][a] == order'[a];
      }
    }
  }

  /**
   The bit loop of `scan_groups` for one lamp whose replies are `group1`
   and `group2`: the lamp is appended to the list of every group whose bit
   is set, and a group seen for the first time gets an empty list first.
   */
  method FileLamp(groups: map<nat, seq<Lamp>>, order: seq<nat>, lamp: Lamp, group1: bv8, group2: bv8)
    returns (groups': map<nat, seq<Lamp>>, order': seq<nat>)
    requires forall g :: g in groups <==> g in order
    requires Distinct(order)
    ensures forall g: nat :: g in groups' <==> g in groups || MaskBit(group1, group2, g)
    ensures forall g :: g in groups' ==>
              groups'[g] == Get(groups, g) + (if MaskBit(group1, group2, g) then [lamp] else [])
    ensures forall g :: g in groups' <==> g in order'
    ensures Distinct(order')
    ensures Appended(order, order', 0, GroupCount)
    ensures forall g :: g in order'[|order|..] ==> g !in groups
  {
    groups', order' := groups, order;
    var i := 0;
    while i < 8
      invariant 0 <= i <= 8
      invariant GroupIndex(groups', order') == Filing(GroupIndex(groups, order), lamp, group1, group2, i)
    {
      groups', order' := FileBit(groups', order', lamp, group1, group2, i);
      i := i + 1;
    }
    FilingSpec(GroupIndex(groups, order), lamp, group1, group2, i);
    FilingOrder(GroupIndex(groups, order), lamp, group1, group2, i);
    NewKeysFresh(groups, order, order');
  }

  /** One round of the bit loop, testing bit `i` of both replies with the mask `1 << i`. */
  method FileBit(groups: map<nat, seq<Lamp>>, order: seq<nat>, lamp: Lamp, group1: bv8, group2: bv8, i: nat)
    returns (groups': map<nat, seq<Lamp>>, order': seq<nat>)
    requires i < 8
    ensures GroupIndex(groups', order') == Round(GroupIndex(groups, order), lamp, group1, group2, i)
  {
    groups', order' := groups, order;
    var checkgroup: bv8 := (1 as bv8) << i;
    BitTests(group1, i);
    BitTests(group2, i);
    if group1 & checkgroup == checkgroup {
      groups', order' := AddMember(groups', order', i, lamp);
    }
    if group2 & checkgroup != 0 {
      groups', order' := AddMember(groups', order', i + 8, lamp);
    }
  }

  /** `if g not in groups: groups[g] = []` followed by `groups[g].append(lamp)`. */
  method AddMember(groups: map<nat, seq<Lamp>>, order: seq<nat>, g: nat, lamp: Lamp)
    returns (groups': map<nat, seq<Lamp>>, order': seq<nat>)
    ensures GroupIndex(groups', order') == Add(GroupIndex(groups, order), g, lamp)
  {
    groups', order' := groups, order;
    if g !in groups' {
      groups' := groups'[g := []];
      order' := order' + [g];
    }
    groups' := groups'[g := groups'[g] + [lamp]];
  }

  // ---------------------------------------------------------------------
  // Linking groups and members

  function Copies(x: Lamp, c: nat): (s: seq<Lamp>)
    ensures |s| == c && forall i :: 0 <= i < c ==> s[i] == x
  {
    seq(c, _ => x)
  }

  /**
   The loop `for lamp_object in lamps: lamp_object.add_associated_lamp(group_object)`:
   every member gains the group once per occurrence in the list.
   */
  method LinkMembers(group: Lamp, members: seq<Lamp>)
    modifies (set l | l in members)`associated
    ensures forall l :: l in members ==> l.associated == old(l.associated) + Copies(group, multiset(members)[l])
  {
    var j := 0;
    while j < |members|
      invariant 0 <= j <= |members|
      invariant forall l :: l in members ==>
                  l.associated == old(l.associated) + Copies(group, multiset(members[..j])[l])
    {
      assert members[..j + 1] == members[..j] + [members[j]];
      members[j].AddAssociatedLamp(group);
      j := j + 1;
    }
    assert members[..j] == members;
  }

  /** The level a lamp with the bounds of `lamp` is created at from the readings `r`. */
  function InitialLevel(lamp: Lamp, r: LampReadings): int
  {
    Committed(r.actualLevel, lamp.minLevel, lamp.maxLevel)
  }

  /** Every lamp filed under some group. */
  function MemberSet(groups: map<nat, seq<Lamp>>): (s: set<Lamp>)
    ensures forall g, l :: g in groups && l in groups[g] ==> l in s
  {
    set g, l | g in groups && l in groups[g] :: l
  }

  /**
   The groups `l` gains, in order, from linking the group lamps `gls`, the
   k-th of them made for the key `order[k]`.
   */
  function Gained(l: Lamp, groups: map<nat, seq<Lamp>>, order: seq<nat>, gls: seq<Lamp>): seq<Lamp>
    requires |gls| <= |order| && forall g :: g in order ==> g in groups
  {
    if gls == [] then []
    else
      var n := |gls| - 1;
      Gained(l, groups, order, gls[..n]) + Copies(gls[n], multiset(groups[order[n]])[l])
  }

  lemma GainedStep(l: Lamp, groups: map<nat, seq<Lamp>>, order: seq<nat>, gls: seq<Lamp>, next: Lamp)
    requires |gls| < |order| && forall g :: g in order ==> g in groups
    ensures Gained(l, groups, order, gls + [next])
         == Gained(l, groups, order, gls) + Copies(next, multiset(groups[order[|gls|]])[l])
  {
    assert (gls + [next])[..|gls|] == gls;
  }

  /** The group lamps among `gls` whose member list holds `l`, in order. */
  function GroupsOf(l: Lamp, groups: map<nat, seq<Lamp>>, order: seq<nat>, gls: seq<Lamp>): seq<Lamp>
    requires |gls| <= |order| && forall g :: g in order ==> g in groups
  {
    if gls == [] then []
    else
      var n := |gls| - 1;
      GroupsOf(l, groups, order, gls[..n]) + (if l in groups[order[n]] then [gls[n]] else [])
  }

  lemma {:induction false} CountInDistinct(s: seq<Lamp>, l: Lamp)
    requires Distinct(s)
    ensures multiset(s)[l] == if l in s then 1 else 0
  {
    if s != [] {
      var n := |s| - 1;
      assert s == s[..n] + [s[n]];
      assert Distinct(s[..n]);
      CountInDistinct(s[..n], l);
    }
  }

  /**
   When no member list repeats a lamp, each lamp gains exactly the groups
   it is a member of, in the order the groups are linked.
   */
  lemma {:induction false} GainedIsGroupsOf(l: Lamp, groups: map<nat, seq<Lamp>>, order: seq<nat>, gls: seq<Lamp>)
    requires |gls| <= |order| && forall g :: g in order ==> g in groups
    requires forall g :: g in groups ==> Distinct(groups[g])
    ensures Gained(l, groups, order, gls) == GroupsOf(l, groups, order, gls)
  {
    if gls != [] {
      var n := |gls| - 1;
      GainedIsGroupsOf(l, groups, order, gls[..n]);
      CountInDistinct(groups[order[n]], l);
    }
  }

  // ---------------------------------------------------------------------
  // Messages

  /** An MQTT payload: the discovery document, a number or `None`, or ON/OFF. */
  datatype Payload = Document(config: HaConfig) | Number(v: Value) | Switch(on: bool)

  datatype Message = Message(topic: string, payload: Payload, retain: bool)

  function StateMessage(ext: Externals, base: string, light: string, on: bool): Message
  {
    Message(ext.stateTopic(base, light), Switch(on), true)
  }

  function BrightnessMessage(ext: Externals, base: string, light: string, level: int): Message
  {
    Message(ext.brightnessStateTopic(base, light), Number(Int(level)), true)
  }

  /** What `retrieve_actual_level` publishes for lamp `light` now at `level`. */
  function RefreshReport(ext: Externals, base: string, light: string, level: int): seq<Message>
  {
    [BrightnessMessage(ext, base, light, level), StateMessage(ext, base, light, level != 0)]
  }

  /** The level `actual_level` stores for a reading. */
  function RefreshedLevel(reading: Value): int
  {
    if reading.Int? then reading.n else 0
  }

  /** The reports of refreshing `visited` in order, each with its own reading. */
  function Reports(ext: Externals, base: string, visited: seq<Lamp>, reading: Lamp -> Value): seq<Message>
  {
    if visited == [] then []
    else
      var last := visited[|visited| - 1];
      Reports(ext, base, visited[..|visited| - 1], reading) +
      RefreshReport(ext, base, last.deviceName, RefreshedLevel(reading(last)))
  }

  function Names(ls: seq<Lamp>): (ns: seq<string>)
    ensures |ns| == |ls| && forall i :: 0 <= i < |ls| ==> ns[i] == ls[i].deviceName
  {
    seq(|ls|, i requires 0 <= i < |ls| => ls[i].deviceName)
  }

  lemma ReportsStep(ext: Externals, base: string, visited: seq<Lamp>, reading: Lamp -> Value, next: Lamp)
    ensures Reports(ext, base, visited + [next], reading)
         == Reports(ext, base, visited, reading) +
            RefreshReport(ext, base, next.deviceName, RefreshedLevel(reading(next)))
  {
    assert (visited + [next])[..|visited|] == visited;
  }

  // ---------------------------------------------------------------------
  // execute_update_associated_lamps

  /**
   The inner loop over the lamps `ns` associated with an associated lamp,
   starting from the lamps `v` refreshed so far: a lamp is refreshed unless
   it carries the source's name `srcName` or a name already refreshed.
   */
  function NestedVisit(srcName: string, ns: seq<Lamp>, v: seq<Lamp>): seq<Lamp>
  {
    if ns == [] then v
    else
      var w := NestedVisit(srcName, ns[..|ns| - 1], v);
      var n := ns[|ns| - 1];
      if n.deviceName != srcName && n.deviceName !in Names(w) then w + [n] else w
  }

  /**
   The lamps `execute_update_associated_lamps` refreshes, in order, for a
   source named `srcName` whose associated lamps are `assoc`, the k-th of
   which has the associated lamps `nested[k]`. An associated lamp whose
   name was refreshed already is skipped together with its own lamps.
   */
  function Visit(srcName: string, isGroup: bool, assoc: seq<Lamp>, nested: seq<seq<Lamp>>): seq<Lamp>
    requires |nested| == |assoc|
  {
    if assoc == [] then []
    else
      var n := |assoc| - 1;
      var v := Visit(srcName, isGroup, assoc[..n], nested[..n]);
      var a := assoc[n];
      if a.deviceName in Names(v) then v
      else if isGroup then NestedVisit(srcName, nested[n], v + [a])
      else v + [a]
  }

  lemma NestedVisitStep(srcName: string, ns: seq<Lamp>, v: seq<Lamp>, i: nat)
    requires i < |ns|
    ensures var w := NestedVisit(srcName, ns[..i], v);
            NestedVisit(srcName, ns[..i + 1], v) ==
              if ns[i].deviceName != srcName && ns[i].deviceName !in Names(w) then w + [ns[i]] else w
  {
    assert ns[..i + 1][..i] == ns[..i];
  }

  lemma VisitStep(srcName: string, isGroup: bool, assoc: seq<Lamp>, nested: seq<seq<Lamp>>, k: nat)
    requires |nested| == |assoc| && k < |assoc|
    ensures var v := Visit(srcName, isGroup, assoc[..k], nested[..k]);
            Visit(srcName, isGroup, assoc[..k + 1], nested[..k + 1]) ==
              if assoc[k].deviceName in Names(v) then v
              else if isGroup then NestedVisit(srcName, nested[k], v + [assoc[k]])
              else v + [assoc[k]]
  {
    assert assoc[..k + 1][..k] == assoc[..k];
    assert nested[..k + 1][..k] == nested[..k];
  }

  /**
   The inner loop keeps what came before, adds only lamps of `ns` not named
   `srcName`, never repeats a name, and leaves no lamp of `ns` with another
   name than `srcName` unrefreshed.
   */
  lemma {:induction false} NestedVisitSpec(srcName: string, ns: seq<Lamp>, v: seq<Lamp>)
    requires Distinct(Names(v))
    ensures |v| <= |NestedVisit(srcName, ns, v)| && NestedVisit(srcName, ns, v)[..|v|] == v
    ensures Distinct(Names(NestedVisit(srcName, ns, v)))
    ensures forall l :: l in NestedVisit(srcName, ns, v) ==> l in v || (l in ns && l.deviceName != srcName)
    ensures forall n :: n in ns && n.deviceName != srcName ==> n.deviceName in Names(NestedVisit(srcName, ns, v))
  {
    if ns != [] {
      var init := ns[..|ns| - 1];
      var w := NestedVisit(srcName, init, v);
      var n := ns[|ns| - 1];
      NestedVisitSpec(srcName, init, v);
      assert ns == init + [n];
      if n.deviceName != srcName && n.deviceName !in Names(w) {
        NamesAppend(w, n);
      }
    }
  }

  /** Appending a lamp with a new name keeps the names distinct. */
  lemma NamesAppend(v: seq<Lamp>, n: Lamp)
    requires Distinct(Names(v)) && n.deviceName !in Names(v)
    ensures Names(v + [n]) == Names(v) + [n.deviceName]
    ensures Distinct(Names(v + [n]))
  {
    assert Names(v + [n]) == Names(v) + [n.deviceName];
  }

  /**
   The refresh reaches every name among the associated lamps, no name
   twice, and nothing but the associated lamps and, for a group source,
   their own lamps not named like the source.
   */
  lemma {:induction false} VisitSpec(srcName: string, isGroup: bool, assoc: seq<Lamp>, nested: seq<seq<Lamp>>)
    requires |nested| == |assoc|
    ensures Distinct(Names(Visit(srcName, isGroup, assoc, nested)))
    ensures forall a :: a in assoc ==> a.deviceName in Names(Visit(srcName, isGroup, assoc, nested))
    ensures forall l :: l in Visit(srcName, isGroup, assoc, nested) ==>
              l in assoc ||
              (isGroup && l.deviceName != srcName && exists k :: 0 <= k < |nested| && l in nested[k])
  {
    if assoc != [] {
      var n := |assoc| - 1;
      var v := Visit(srcName, isGroup, assoc[..n], nested[..n]);
      var a := assoc[n];
      VisitSpec(srcName, isGroup, assoc[..n], nested[..n]);
      assert assoc == assoc[..n] + [a];
      forall l | l in v && l !in assoc[..n] && l !in assoc
        ensures isGroup && l.deviceName != srcName && exists k :: 0 <= k < |nested| && l in nested[k]
      {
        var k :| 0 <= k < |nested[..n]| && l in nested[..n][k];
        assert nested[k] == nested[..n][k];
      }
      if a.deviceName !in Names(v) {
        NamesAppend(v, a);
        if isGroup {
          NestedVisitSpec(srcName, nested[n], v + [a]);
          PrefixNames(v + [a], NestedVisit(srcName, nested[n], v + [a]));
        }
      }
    }
  }

  /** Every name refreshed by a prefix of the refresh is refreshed by the whole. */
  lemma PrefixNames(v: seq<Lamp>, r: seq<Lamp>)
    requires |v| <= |r| && r[..|v|] == v
    ensures forall l :: l in v ==> l.deviceName in Names(r)
  {
    forall l | l in v ensures l.deviceName in Names(r) {
      var i :| 0 <= i < |v| && v[i] == l;
      assert r[i] == l;
    }
  }

  /** A source that is no group refreshes its associated lamps only, each name once. */
  lemma {:induction false} LampSourceVisitsAssociatedOnly(srcName: string, assoc: seq<Lamp>, nested: seq<seq<Lamp>>)
    requires |nested| == |assoc|
    ensures forall l :: l in Visit(srcName, false, assoc, nested) ==> l in assoc
  {
    VisitSpec(srcName, false, assoc, nested);
  }

  /** The lists of lamps associated with each of `ls`. */
  ghost function NestedOf(ls: seq<Lamp>): (r: seq<seq<Lamp>>)
    reads ls`associated
    ensures |r| == |ls| && forall k :: 0 <= k < |ls| ==> r[k] == ls[k].associated
  {
    if ls == [] then [] else NestedOf(ls[..|ls| - 1]) + [ls[|ls| - 1].associated]
  }

  /** The lamps `execute_update_associated_lamps` refreshes for `src`, in order. */
  ghost function Refreshed(src: Lamp): seq<Lamp>
    reads src`associated, src.associated`associated
  {
    Visit(src.deviceName, src.IsGroup(), src.associated, NestedOf(src.associated))
  }

  /** The refresh stays among the lamps around its source. */
  lemma RefreshedWithinAround(src: Lamp)
    ensures forall l :: l in Refreshed(src) ==> l in Around(src)
  {
    VisitSpec(src.deviceName, src.IsGroup(), src.associated, NestedOf(src.associated));
  }

  /** The lamps the refresh around `src` may touch: its associated lamps and theirs. */
  ghost function Around(src: Lamp): (s: set<Lamp>)
    reads src`associated, src.associated`associated
    ensures forall a :: a in src.associated ==> a in s && forall n :: n in a.associated ==> n in s
  {
    (set a | a in src.associated) + (set a, n | a in src.associated && n in a.associated :: n)
  }

  /** Lamps whose associated lamps stay put keep the lists of their associated lamps. */
  twostate lemma NestedKept(ls: seq<Lamp>)
    requires forall k :: 0 <= k < |ls| ==> old(ls[k].associated) == ls[k].associated
    ensures NestedOf(ls) == old(NestedOf(ls))
  {
    if ls != [] {
      NestedKept(ls[..|ls| - 1]);
    }
  }

  /** When no associated lamps around `src` change, neither does what its refresh reaches. */
  twostate lemma AroundKept(src: Lamp)
    requires old(src.associated) == src.associated
    requires forall a :: a in src.associated ==> old(a.associated) == a.associated
    ensures Around(src) == old(Around(src))
    ensures Refreshed(src) == old(Refreshed(src))
  {
    NestedKept(src.associated);
  }

  // ---------------------------------------------------------------------
  // The bridge state and its handlers

  /**
   The bridge's `data_object` and MQTT client: the driver, the base topic,
   the registry `all_lamps` from device name to lamp, and the outbox of
   published messages.
   */
  class Bridge {
    const bus: Bus
    const baseTopic: string
    const haPrefix: string
    const ext: Externals
    var allLamps: map<string, Lamp>
    var outbox: seq<Message>

    /** Every registered lamp is filed under its device name and talks to this bridge's bus. */
    ghost predicate Valid()
      reads this`allLamps
    {
      forall name :: name in allLamps ==> allLamps[name].deviceName == name && allLamps[name].bus == bus
    }

    constructor (bus: Bus, baseTopic: string, haPrefix: string, ext: Externals)
      ensures Valid()
      ensures this.bus == bus && this.baseTopic == baseTopic && this.haPrefix == haPrefix && this.ext == ext
      ensures allLamps == map[] && outbox == []
    {
      this.bus := bus;
      this.baseTopic := baseTopic;
      this.haPrefix := haPrefix;
      this.ext := ext;
      allLamps := map[];
      outbox := [];
    }

    /** The six retained messages `create_mqtt_lamp` publishes for a new lamp at `level`. */
    function Announcement(lamp: Lamp, level: int): (ms: seq<Message>)
      ensures |ms| == 6 && forall m :: m in ms ==> m.retain
      ensures ms[0].topic == ext.discoveryTopic(haPrefix, lamp.deviceName)
      ensures ms[0].payload.Document? && ms[0].payload.config.objectId == ObjectIdPrefix + lamp.deviceName
      ensures ms[1] == BrightnessMessage(ext, baseTopic, lamp.deviceName, level)
      ensures ms[2].payload == Number(Int(lamp.maxLevel)) && ms[3].payload == Number(lamp.minLevel)
      ensures ms[4].payload == Number(lamp.minPhysicalLevel)
      ensures ms[5] == StateMessage(ext, baseTopic, lamp.deviceName, level > 0)
    {
      var dn := lamp.deviceName;
      [ Message(ext.discoveryTopic(haPrefix, dn), Document(lamp.GenHaConfig(baseTopic, ext)), true),
        BrightnessMessage(ext, baseTopic, dn, level),
        Message(ext.maxLevelTopic(baseTopic, dn), Number(Int(lamp.maxLevel)), true),
        Message(ext.minLevelTopic(baseTopic, dn), Number(lamp.minLevel), true),
        Message(ext.physicalMinimumTopic(baseTopic, dn), Number(lamp.minPhysicalLevel), true),
        StateMessage(ext, baseTopic, dn, level > 0) ]
    }

    /** The announcement of a group lamp `l` created for the key `g`. */
    function Announce(readings: nat -> LampReadings): (Lamp, nat) -> seq<Message>
    {
      (l: Lamp, g: nat) => Announcement(l, InitialLevel(l, readings(g)))
    }

    /** The announcements of the group lamps `ls`, the k-th created from `readings(order[k])`. */
    function Announcements(ls: seq<Lamp>, order: seq<nat>, readings: nat -> LampReadings): seq<Message>
      requires |ls| <= |order|
    {
      Concat(ls, order, Announce(readings))
    }

    /** The DAPC commands the constructors of the group lamps `ls` sent. */
    function CreationFrames(ls: seq<Lamp>, order: seq<nat>, readings: nat -> LampReadings): seq<Command>
      requires |ls| <= |order|
    {
      Concat(ls, order, CreationCommands(readings))
    }

    /**
     `create_mqtt_lamp`: builds the lamp from its four readings, registers it
     under its device name and publishes its announcement.
     */
    method CreateMqttLamp(address: Address, name: string, r: LampReadings) returns (lamp: Lamp)
      requires Valid()
      modifies this`allLamps, this`outbox, bus`sent
      ensures Valid()
      ensures fresh(lamp)
      ensures lamp.bus == bus && lamp.shortAddress == address && lamp.friendlyName == name
      ensures lamp.deviceName == ext.slugify(name) && lamp.associated == []
      ensures lamp.minPhysicalLevel == r.physicalMinimum
      ensures lamp.minLevel == SeedMinLevel(r.minLevel, r.physicalMinimum)
      ensures lamp.maxLevel == SeedMaxLevel(r.maxLevel)
      ensures lamp.level == InitialLevel(lamp, r)
      ensures bus.sent == old(bus.sent) + SetterFrames(address, r.actualLevel, lamp.level)
      ensures allLamps == old(allLamps)[lamp.deviceName := lamp]
      ensures outbox == old(outbox) + Announcement(lamp, lamp.level)
    {
      lamp := new Lamp(bus, name, address, ext.slugify, r);
      allLamps := allLamps[lamp.deviceName := lamp];
      outbox := outbox + Announcement(lamp, lamp.level);
    }

    /**
     The linking loop of `initialize_lamps` over `groups.items()` in the
     order `order`: one group lamp per key, whose associated lamps are
     the group's member list, appended to each member's associated lamps.
     */
    method LinkGroups(groups: map<nat, seq<Lamp>>, order: seq<nat>,
                      groupName: nat -> string, readings: nat -> LampReadings)
      returns (groupLamps: seq<Lamp>)
      requires Valid()
      requires forall g :: g in order ==> g in groups
      modifies this`allLamps, this`outbox, bus`sent, MemberSet(groups)`associated
      ensures Valid()
      ensures |groupLamps| == |order|
      ensures forall k :: 0 <= k < |order| ==>
                groupLamps[k] !in MemberSet(groups) && groupLamps[k].shortAddress == Group(order[k]) &&
                groupLamps[k].IsGroup() &&
                groupLamps[k].friendlyName == groupName(order[k]) &&
                groupLamps[k].associated == groups[order[k]]
      ensures forall l :: l in MemberSet(groups) ==>
                l.associated == old(l.associated) + Gained(l, groups, order, groupLamps)
      ensures allLamps == Register(old(allLamps), groupLamps)
      ensures outbox == old(outbox) + Announcements(groupLamps, order, readings)
      ensures bus.sent == old(bus.sent) + CreationFrames(groupLamps, order, readings)
    {
      groupLamps := [];
      ghost var assoc0 := map l | l in MemberSet(groups) :: l.associated;
      while |groupLamps| < |order|
        invariant |groupLamps| <= |order|
        invariant Valid()
        invariant Registered(order, groupLamps, readings, old(allLamps), old(outbox), old(bus.sent))
        invariant Attached(groups, order, groupLamps, groupName, assoc0)
        invariant forall l :: l in MemberSet(groups) ==> assoc0[l] == old(l.associated)
      {
        var groupObject := LinkGroup(groups, order, groupLamps, groupName, readings,
                                     old(allLamps), old(outbox), old(bus.sent), assoc0);
        groupLamps := groupLamps + [groupObject];
      }
    }

    /**
     Half of the invariant of the linking loop once the group lamps `gls`
     are made: the registry, outbox and bus log against those before it.
     */
    ghost predicate Registered(order: seq<nat>, gls: seq<Lamp>, readings: nat -> LampReadings,
                               allLamps0: map<string, Lamp>, outbox0: seq<Message>, sent0: seq<Command>)
      reads this`allLamps, this`outbox, bus`sent
    {
      |gls| <= |order| &&
      allLamps == Register(allLamps0, gls) &&
      outbox == outbox0 + Announcements(gls, order, readings) &&
      bus.sent == sent0 + CreationFrames(gls, order, readings)
    }

    /**
     One round of the linking loop, for the key `order[|gls|]`: creates the
     lamp of that group, sets its associated lamps to the member list and
     appends it to each member's. The ghost parameters are the state before
     the loop.
     */
    method LinkGroup(groups: map<nat, seq<Lamp>>, order: seq<nat>, gls: seq<Lamp>,
                     groupName: nat -> string, readings: nat -> LampReadings,
                     ghost allLamps0: map<string, Lamp>, ghost outbox0: seq<Message>,
                     ghost sent0: seq<Command>, ghost assoc0: map<Lamp, seq<Lamp>>)
      returns (groupObject: Lamp)
      requires Valid()
      requires |gls| < |order| && forall g :: g in order ==> g in groups
      requires Registered(order, gls, readings, allLamps0, outbox0, sent0)
      requires Attached(groups, order, gls, groupName, assoc0)
      modifies this`allLamps, this`outbox, bus`sent, MemberSet(groups)`associated
      ensures Valid()
      ensures fresh(groupObject)
      ensures Registered(order, gls + [groupObject], readings, allLamps0, outbox0, sent0)
      ensures Attached(groups, order, gls + [groupObject], groupName, assoc0)
    {
      var g := order[|gls|];
      groupObject := CreateMqttLamp(Group(g), groupName(g), readings(g));
      RegisterStep(allLamps0, gls, groupObject);
      ConcatStep(outbox0, gls, order, Announce(readings), groupObject);
      ConcatStep(sent0, gls, order, CreationCommands(readings), groupObject);
      AttachGroup(groupObject, groups, order, gls, groupName, assoc0);
    }

    /** `retrieve_actual_level`: refreshes the cached level and publishes it. */
    method RetrieveActualLevel(lamp: Lamp, reading: Value)
      modifies this`outbox, lamp`level
      ensures lamp.level == RefreshedLevel(reading)
      ensures outbox == old(outbox) + RefreshReport(ext, baseTopic, lamp.deviceName, lamp.level)
    {
      lamp.ActualLevel(reading);
      outbox := outbox + RefreshReport(ext, baseTopic, lamp.deviceName, lamp.level);
    }

    /** The lamp registered under `light` and the lamps its refresh may touch. */
    ghost function Reach(light: string): set<Lamp>
      reads this`allLamps, allLamps.Values`associated, Associated(allLamps.Values)`associated
    {
      if light in allLamps then
        var lamp := allLamps[light];
        assert lamp in allLamps.Values;
        {lamp} + Around(lamp)
      else {}
    }

    /** The lamps associated with some lamp of `ls`. */
    ghost function Associated(ls: set<Lamp>): (s: set<Lamp>)
      reads ls`associated
      ensures forall l, a :: l in ls && a in l.associated ==> a in s
    {
      set l, a | l in ls && a in l.associated :: a
    }

    /**
     `on_message_cmd` for the lamp named `light`: an OFF payload switches a
     registered lamp off, publishes OFF and refreshes its associated lamps.
     Any other payload, or an unknown name, changes nothing.
     */
    method OnCommand(light: string, payloadIsOff: bool, reading: Lamp -> Value)
      requires Valid()
      modifies this`outbox, bus`sent, Reach(light)`level
      ensures !payloadIsOff || light !in allLamps ==>
                outbox == old(outbox) && bus.sent == old(bus.sent) &&
                forall l :: l in old(Reach(light)) ==> l.level == old(l.level)
      ensures payloadIsOff && light in allLamps ==>
                var lamp := allLamps[light];
                bus.sent == old(bus.sent) + [Command.Off(lamp.shortAddress)] &&
                outbox == old(outbox) + [StateMessage(ext, baseTopic, light, false)] +
                          Reports(ext, baseTopic, old(Refreshed(lamp)), reading) &&
                lamp.level == (if lamp in old(Refreshed(lamp)) then RefreshedLevel(reading(lamp)) else 0) &&
                forall l :: l in old(Around(lamp)) && l != lamp ==>
                  l.level == if l in old(Refreshed(lamp)) then RefreshedLevel(reading(l)) else old(l.level)
    {
      if payloadIsOff && light in allLamps {
        SwitchOff(allLamps[light], light, reading);
      }
    }

    /** The OFF branch of `on_message_cmd` for the registered `lamp`. */
    method SwitchOff(lamp: Lamp, light: string, reading: Lamp -> Value)
      requires lamp.bus == bus
      modifies this`outbox, bus`sent, lamp`level, Around(lamp)`level
      ensures bus.sent == old(bus.sent) + [Command.Off(lamp.shortAddress)]
      ensures outbox == old(outbox) + [StateMessage(ext, baseTopic, light, false)] +
                        Reports(ext, baseTopic, old(Refreshed(lamp)), reading)
      ensures lamp.level == if lamp in old(Refreshed(lamp)) then RefreshedLevel(reading(lamp)) else 0
      ensures forall l :: l in old(Around(lamp)) && l != lamp ==>
                l.level == if l in old(Refreshed(lamp)) then RefreshedLevel(reading(l)) else old(l.level)
    {
      RefreshedWithinAround(lamp);
      OffAndPublish(lamp, light);
      UpdateAssociatedLamps(lamp, reading);
    }

    /** `lamp_object.off()` and the publication of OFF; no lamp's associated lamps change. */
    method OffAndPublish(lamp: Lamp, light: string)
      requires lamp.bus == bus
      modifies this`outbox, bus`sent, lamp`level
      ensures lamp.level == 0
      ensures bus.sent == old(bus.sent) + [Command.Off(lamp.shortAddress)]
      ensures outbox == old(outbox) + [StateMessage(ext, baseTopic, light, false)]
      ensures Around(lamp) == old(Around(lamp)) && Refreshed(lamp) == old(Refreshed(lamp))
    {
      lamp.Off();
      outbox := outbox + [StateMessage(ext, baseTopic, light, false)];
      AroundKept(lamp);
    }

    /**
     `on_message_brightness_cmd` for the lamp named `light` and the payload
     parsed as an integer (`None` when `int()` raised `ValueError`). When the
     predictor says the command changes nothing, nothing is sent or
     published; otherwise the level is committed, a committed 0 also sends
     OFF, the state is ON exactly when the level is not 0, and the
     associated lamps are refreshed.
     */
    method OnBrightnessCommand(light: string, payload: Option<int>, reading: Lamp -> Value)
      requires Valid()
      modifies this`outbox, bus`sent, Reach(light)`level
      ensures light !in allLamps || payload.None? ||
              !ChangeNeeded(Int(payload.value), allLamps[light].minLevel, allLamps[light].maxLevel,
                            old(allLamps[light].level)) ==>
                outbox == old(outbox) && bus.sent == old(bus.sent) &&
                forall l :: l in old(Reach(light)) ==> l.level == old(l.level)
      ensures light in allLamps && payload.Some? &&
              ChangeNeeded(Int(payload.value), allLamps[light].minLevel, allLamps[light].maxLevel,
                           old(allLamps[light].level)) ==>
                var lamp := allLamps[light];
                var c := Committed(Int(payload.value), lamp.minLevel, lamp.maxLevel);
                bus.sent == old(bus.sent) + [DAPC(lamp.shortAddress, c)] +
                            (if c == 0 then [Command.Off(lamp.shortAddress)] else []) &&
                outbox == old(outbox) +
                          [StateMessage(ext, baseTopic, light, c != 0), BrightnessMessage(ext, baseTopic, light, c)] +
                          Reports(ext, baseTopic, old(Refreshed(lamp)), reading) &&
                lamp.level == (if lamp in old(Refreshed(lamp)) then RefreshedLevel(reading(lamp)) else c) &&
                forall l :: l in old(Around(lamp)) && l != lamp ==>
                  l.level == if l in old(Refreshed(lamp)) then RefreshedLevel(reading(l)) else old(l.level)
    {
      if light in allLamps {
        var lamp := allLamps[light];
        if payload.Some? {
          var newLevel := payload.value;
          if lamp.LevelChangeNeeded(Int(newLevel)) {
            CommitBrightness(lamp, light, newLevel, reading);
          }
        }
      }
    }

    /** The branch of `on_message_brightness_cmd` that commits `newLevel` to the registered `lamp`. */
    method CommitBrightness(lamp: Lamp, light: string, newLevel: int, reading: Lamp -> Value)
      requires lamp.bus == bus
      modifies this`outbox, bus`sent, lamp`level, Around(lamp)`level
      ensures var c := Committed(Int(newLevel), lamp.minLevel, lamp.maxLevel);
              bus.sent == old(bus.sent) + [DAPC(lamp.shortAddress, c)] +
                          (if c == 0 then [Command.Off(lamp.shortAddress)] else []) &&
              outbox == old(outbox) +
                        [StateMessage(ext, baseTopic, light, c != 0), BrightnessMessage(ext, baseTopic, light, c)] +
                        Reports(ext, baseTopic, old(Refreshed(lamp)), reading) &&
              lamp.level == (if lamp in old(Refreshed(lamp)) then RefreshedLevel(reading(lamp)) else c)
      ensures forall l :: l in old(Around(lamp)) && l != lamp ==>
                l.level == if l in old(Refreshed(lamp)) then RefreshedLevel(reading(l)) else old(l.level)
    {
      RefreshedWithinAround(lamp);
      CommitAndPublish(lamp, light, newLevel);
      UpdateAssociatedLamps(lamp, reading);
    }

    /**
     `lamp_object.level = new_level`, `off()` when the stored level is 0, and
     the publication of state and level; no lamp's associated lamps change.
     */
    method CommitAndPublish(lamp: Lamp, light: string, newLevel: int)
      requires lamp.bus == bus
      modifies this`outbox, bus`sent, lamp`level
      ensures var c := Committed(Int(newLevel), lamp.minLevel, lamp.maxLevel);
              lamp.level == c &&
              bus.sent == old(bus.sent) + [DAPC(lamp.shortAddress, c)] +
                          (if c == 0 then [Command.Off(lamp.shortAddress)] else []) &&
              outbox == old(outbox) +
                        [StateMessage(ext, baseTopic, light, c != 0), BrightnessMessage(ext, baseTopic, light, c)]
      ensures Around(lamp) == old(Around(lamp)) && Refreshed(lamp) == old(Refreshed(lamp))
    {
      lamp.SetLevel(Int(newLevel));
      if lamp.level == 0 {
        lamp.Off();
      }
      outbox := outbox + [StateMessage(ext, baseTopic, light, lamp.level != 0),
                          BrightnessMessage(ext, baseTopic, light, lamp.level)];
      AroundKept(lamp);
    }

    /** `on_message_brightness_get_cmd`: refreshes and reports a registered lamp. */
    method OnBrightnessGetCommand(light: string, reading: Lamp -> Value)
      requires Valid()
      modifies this`outbox, (if light in allLamps then {allLamps[light]} else {})`level
      ensures light !in allLamps ==> outbox == old(outbox)
      ensures light in allLamps ==>
                allLamps[light].level == RefreshedLevel(reading(allLamps[light])) &&
                outbox == old(outbox) + RefreshReport(ext, baseTopic, light, allLamps[light].level)
    {
      if light in allLamps {
        RetrieveActualLevel(allLamps[light], reading(allLamps[light]));
      }
    }

    /**
     The state of the refresh loops once the lamps `visited` are refreshed:
     `requested` holds their names, the outbox their reports, and each lamp
     of `area` has its refreshed level exactly when it was visited.
     */
    ghost predicate Refreshing(visited: seq<Lamp>, requested: seq<string>, area: set<Lamp>,
                               levels0: map<Lamp, int>, outbox0: seq<Message>, reading: Lamp -> Value)
      reads this`outbox, area`level
    {
      requested == Names(visited) &&
      outbox == outbox0 + Reports(ext, baseTopic, visited, reading) &&
      forall x :: x in area ==>
        x in levels0 && x.level == if x in visited then RefreshedLevel(reading(x)) else levels0[x]
    }

    /** One refresh of the loops: `retrieve_actual_level` and recording the name. */
    method Refresh(l: Lamp, reading: Lamp -> Value, requested: seq<string>, ghost visited: seq<Lamp>,
                   ghost area: set<Lamp>, ghost levels0: map<Lamp, int>, ghost outbox0: seq<Message>)
      returns (requested': seq<string>, ghost visited': seq<Lamp>)
      requires l in area
      requires Refreshing(visited, requested, area, levels0, outbox0, reading)
      modifies this`outbox, area`level
      ensures visited' == visited + [l]
      ensures Refreshing(visited', requested', area, levels0, outbox0, reading)
    {
      RetrieveActualLevel(l, reading(l));
      requested' := requested + [l.deviceName];
      visited' := visited + [l];
      ReportsStep(ext, baseTopic, visited, reading, l);
      assert Names(visited') == Names(visited) + [l.deviceName];
    }

    /**
     The inner loop over the lamps `ns` associated with an associated lamp
     of the source named `srcName`.
     */
    method RefreshNested(srcName: string, ns: seq<Lamp>, reading: Lamp -> Value,
                         requested: seq<string>, ghost visited: seq<Lamp>,
                         ghost area: set<Lamp>, ghost levels0: map<Lamp, int>, ghost outbox0: seq<Message>)
      returns (requested': seq<string>, ghost visited': seq<Lamp>)
      requires forall n :: n in ns ==> n in area
      requires Refreshing(visited, requested, area, levels0, outbox0, reading)
      modifies this`outbox, area`level
      ensures visited' == NestedVisit(srcName, ns, visited)
      ensures Refreshing(visited', requested', area, levels0, outbox0, reading)
    {
      requested', visited' := requested, visited;
      var i := 0;
      while i < |ns|
        invariant 0 <= i <= |ns|
        invariant visited' == NestedVisit(srcName, ns[..i], visited)
        invariant Refreshing(visited', requested', area, levels0, outbox0, reading)
      {
        var nestedLamp := ns[i];
        NestedVisitStep(srcName, ns, visited, i);
        if nestedLamp.deviceName != srcName && nestedLamp.deviceName !in requested' {
          requested', visited' := Refresh(nestedLamp, reading, requested', visited', area, levels0, outbox0);
        }
        i := i + 1;
      }
      assert ns[..i] == ns;
    }

    /** One round of the outer loop, for the associated lamp `a` of `src`. */
    method RefreshAssociated(srcName: string, isGroup: bool, a: Lamp, ghost ns: seq<Lamp>, reading: Lamp -> Value,
                             requested: seq<string>, ghost visited: seq<Lamp>,
                             ghost area: set<Lamp>, ghost levels0: map<Lamp, int>, ghost outbox0: seq<Message>)
      returns (requested': seq<string>, ghost visited': seq<Lamp>)
      requires a.associated == ns
      requires a in area && forall n :: n in ns ==> n in area
      requires Refreshing(visited, requested, area, levels0, outbox0, reading)
      modifies this`outbox, area`level
      ensures visited' ==
                if a.deviceName in Names(visited) then visited
                else if isGroup then NestedVisit(srcName, ns, visited + [a])
                else visited + [a]
      ensures Refreshing(visited', requested', area, levels0, outbox0, reading)
    {
      requested', visited' := requested, visited;
      if a.deviceName !in requested {
        requested', visited' := Refresh(a, reading, requested', visited', area, levels0, outbox0);
        if isGroup {
          if a.associated != [] {
            requested', visited' := RefreshNested(srcName, a.associated, reading,
                                                  requested', visited', area, levels0, outbox0);
          }
        }
      }
    }

    /**
     The outer loop over the lamps `assoc` associated with the source named
     `srcName`, the k-th of which has the associated lamps `nested[k]`.
     */
    method RefreshAll(srcName: string, isGroup: bool, assoc: seq<Lamp>, ghost nested: seq<seq<Lamp>>,
                      reading: Lamp -> Value,
                      ghost area: set<Lamp>, ghost levels0: map<Lamp, int>, ghost outbox0: seq<Message>)
      returns (ghost visited: seq<Lamp>)
      requires |nested| == |assoc|
      requires forall j :: 0 <= j < |assoc| ==>
                 assoc[j].associated == nested[j] && assoc[j] in area &&
                 forall n :: n in nested[j] ==> n in area
      requires Refreshing([], [], area, levels0, outbox0, reading)
      modifies this`outbox, area`level
      ensures visited == Visit(srcName, isGroup, assoc, nested)
      ensures Refreshing(visited, Names(visited), area, levels0, outbox0, reading)
    {
      var requested: seq<string> := [];
      visited := [];
      var k := 0;
      while k < |assoc|
        invariant 0 <= k <= |assoc|
        invariant visited == Visit(srcName, isGroup, assoc[..k], nested[..k])
        invariant Refreshing(visited, requested, area, levels0, outbox0, reading)
      {
        VisitStep(srcName, isGroup, assoc, nested, k);
        requested, visited := RefreshAssociated(srcName, isGroup, assoc[k], nested[k], reading,
                                                requested, visited, area, levels0, outbox0);
        k := k + 1;
      }
      assert assoc[..k] == assoc && nested[..k] == nested;
    }

    /**
     `execute_update_associated_lamps`: refreshes and reports the lamps of
     `Refreshed(src)`, each read with its own `reading`; every other lamp
     around `src` keeps its level.
     */
    method ExecuteUpdateAssociatedLamps(src: Lamp, reading: Lamp -> Value)
      modifies this`outbox, Around(src)`level
      ensures outbox == old(outbox) + Reports(ext, baseTopic, old(Refreshed(src)), reading)
      ensures forall l :: l in old(Around(src)) ==>
                l.level == if l in old(Refreshed(src)) then RefreshedLevel(reading(l)) else old(l.level)
    {
      var assoc := src.associated;
      ghost var nested := NestedOf(assoc);
      ghost var area := Around(src);
      ghost var levels0 := map l | l in area :: l.level;
      ghost var refreshed := Visit(src.deviceName, src.IsGroup(), assoc, nested);
      assert refreshed == Refreshed(src);
      if assoc != [] {
        ghost var visited := RefreshAll(src.deviceName, src.IsGroup(), assoc, nested, reading,
                                        area, levels0, old(outbox));
      }
    }

    /**
     `update_associated_lamps`, with the one-second pause and the hand-off to
     the worker thread left out: the refresh runs at once when `lamp` has
     associated lamps.
     */
    method UpdateAssociatedLamps(lamp: Lamp, reading: Lamp -> Value)
      modifies this`outbox, Around(lamp)`level
      ensures outbox == old(outbox) + Reports(ext, baseTopic, old(Refreshed(lamp)), reading)
      ensures forall l :: l in old(Around(lamp)) ==>
                l.level == if l in old(Refreshed(lamp)) then RefreshedLevel(reading(l)) else old(l.level)
    {
      if lamp.associated != [] {
        ExecuteUpdateAssociatedLamps(lamp, reading);
      }
    }
  }

  /**
   The other half of the invariant of the linking loop: the group lamps
   made so far carry their key's address, name and member list, and every
   member has gained them on top of its associated lamps `assoc0` before.
   */
  ghost predicate Attached(groups: map<nat, seq<Lamp>>, order: seq<nat>, gls: seq<Lamp>,
                           groupName: nat -> string, assoc0: map<Lamp, seq<Lamp>>)
    requires forall g :: g in order ==> g in groups
    reads MemberSet(groups)`associated, gls`associated
  {
    |gls| <= |order| &&
    (forall j :: 0 <= j < |gls| ==>
       gls[j] !in MemberSet(groups) &&
       gls[j].shortAddress == Group(order[j]) &&
       gls[j].friendlyName == groupName(order[j]) &&
       gls[j].associated == groups[order[j]]) &&
    (forall l :: l in MemberSet(groups) ==>
       l in assoc0 && l.associated == assoc0[l] + Gained(l, groups, order, gls))
  }

  /**
   The second half of a round of the linking loop: `group_object.associated_lamps = lamps`
   and the members' `add_associated_lamp(group_object)`.
   */
  method AttachGroup(groupObject: Lamp, groups: map<nat, seq<Lamp>>, order: seq<nat>, gls: seq<Lamp>,
                     groupName: nat -> string, ghost assoc0: map<Lamp, seq<Lamp>>)
    requires |gls| < |order| && forall g :: g in order ==> g in groups
    requires groupObject !in MemberSet(groups) && groupObject !in gls
    requires groupObject.shortAddress == Group(order[|gls|])
    requires groupObject.friendlyName == groupName(order[|gls|])
    requires Attached(groups, order, gls, groupName, assoc0)
    modifies groupObject`associated, MemberSet(groups)`associated
    ensures Attached(groups, order, gls + [groupObject], groupName, assoc0)
  {
    var members := groups[order[|gls|]];
    groupObject.associated := members;
    LinkMembers(groupObject, members);
    forall l | l in MemberSet(groups)
      ensures l.associated == assoc0[l] + Gained(l, groups, order, gls + [groupObject])
    {
      GainedStep(l, groups, order, gls, groupObject);
    }
  }

  /** What the constructor of a group lamp `l` for the key `g` sends. */
  function CreationCommands(readings: nat -> LampReadings): (Lamp, nat) -> seq<Command>
  {
    (l: Lamp, g: nat) => SetterFrames(Group(g), readings(g).actualLevel, InitialLevel(l, readings(g)))
  }

  /** The concatenation of `f(ls[k], order[k])` over the lamps `ls`. */
  function Concat<T>(ls: seq<Lamp>, order: seq<nat>, f: (Lamp, nat) -> seq<T>): seq<T>
    requires |ls| <= |order|
  {
    if ls == [] then []
    else
      var n := |ls| - 1;
      Concat(ls[..n], order, f) + f(ls[n], order[n])
  }

  lemma ConcatStep<T>(prefix: seq<T>, ls: seq<Lamp>, order: seq<nat>, f: (Lamp, nat) -> seq<T>, next: Lamp)
    requires |ls| < |order|
    ensures prefix + Concat(ls + [next], order, f) == prefix + Concat(ls, order, f) + f(next, order[|ls|])
  {
    assert (ls + [next])[..|ls|] == ls;
  }

  /** The registry after registering the lamps of `ls` in order under their device names. */
  function Register(m: map<string, Lamp>, ls: seq<Lamp>): map<string, Lamp>
  {
    if ls == [] then m
    else Register(m, ls[..|ls| - 1])[ls[|ls| - 1].deviceName := ls[|ls| - 1]]
  }

  lemma RegisterStep(m: map<string, Lamp>, ls: seq<Lamp>, next: Lamp)
    ensures Register(m, ls + [next]) == Register(m, ls)[next.deviceName := next]
  {
    assert (ls + [next])[..|ls|] == ls;
  }
}
