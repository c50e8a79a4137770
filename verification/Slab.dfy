/**
The slab allocator: zones of equal chunks for small requests, runs of pages for large ones, and
a table that tells for every page what it is used for. Addresses count from `heap_start`.
*/
module Slab {
  import opened Lists
  import opened SlabPages
  import opened SlabZones

  /** PAGE_TYPE_FREE, PAGE_TYPE_SMALL, PAGE_TYPE_LARGE */
  datatype Kind = FreePage | SmallPage | LargePage

  /** An entry of `memusage`: for a zone page its distance from the zone header, for the first page
      of a large block the number of pages. */
  datatype Usage = Usage(kind: Kind, size: nat)

  datatype Owner = Nobody | OfZone(z: nat) | OfLarge(first: nat) | OfTable

  // ---- the invariant ------------------------------------------------------------------------------

  function OwnerAt(owner: seq<Owner>, q: nat): Owner {
    if q < |owner| then owner[q] else OfTable
  }

  function UsageAt(usage: seq<Usage>, q: nat): Usage {
    if q < |usage| then usage[q] else Usage(FreePage, 0)
  }

  /** The free runs are the pages that belong to nobody. */
  ghost predicate PagesOk(runs: seq<Run>, owner: seq<Owner>) {
    RunsOk(runs) && forall p: nat :: IsFree(runs, p) <==> OwnerAt(owner, p) == Nobody
  }

  /** The pages of every zone are its own, and the table leads from each of them to the header. */
  ghost predicate ZonesPlaced(zs: set<nat>, zp: nat, owner: seq<Owner>, usage: seq<Usage>) {
    && (forall z, q: nat :: z in zs && z <= q < z + zp ==> OwnerAt(owner, q) == OfZone(z))
    && (forall q: nat :: OwnerAt(owner, q).OfZone? ==>
          var z := OwnerAt(owner, q).z; z in zs && z <= q < z + zp && UsageAt(usage, q) == Usage(SmallPage, q - z))
  }

  ghost predicate LargePlaced(larges: map<nat, nat>, owner: seq<Owner>, usage: seq<Usage>) {
    && (forall f :: f in larges ==> larges[f] > 0 && UsageAt(usage, f) == Usage(LargePage, larges[f]))
    && (forall f, q: nat :: f in larges && f <= q < f + larges[f] ==> OwnerAt(owner, q) == OfLarge(f))
    && (forall q: nat :: OwnerAt(owner, q).OfLarge? ==>
          var f := OwnerAt(owner, q).first; f in larges && f <= q < f + larges[f])
  }

  /** A zone in use has all its counts right and is listed exactly if it has a free chunk. */
  ghost predicate Active(zoneSize: nat, z: nat, zn: Zone, live: set<nat>, lists: seq<seq<nat>>) {
    && ZoneOk(zoneSize, z, zn, live)
    && zn.index < |lists| && (z in lists[zn.index] <==> zn.nfree > 0)
  }

  ghost predicate ZonesListed(zoneSize: nat, zones: map<nat, Zone>, live: map<nat, set<nat>>, lists: seq<seq<nat>>,
                              cached: seq<nat>) {
    && |lists| == NZONES && live.Keys == zones.Keys
    && (forall z :: z in zones && z !in cached ==> Active(zoneSize, z, zones[z], live[z], lists))
    && (forall i :: 0 <= i < NZONES ==> Distinct(lists[i]))
    && (forall i, z :: 0 <= i < NZONES && z in lists[i] ==> z in zones && z !in cached && zones[z].index == i)
    && Distinct(cached) && (forall z :: z in cached ==> z in zones && live[z] == {})
  }

  // ---- live chunks ----------------------------------------------------------------------------------

  predicate LiveAt(live: map<nat, set<nat>>, z: nat, i: nat) {
    z in live && i in live[z]
  }

  /** Chunks that are live before and after stay where they are. */
  ghost predicate SameChunks(zones: map<nat, Zone>, live: map<nat, set<nat>>, zones': map<nat, Zone>,
                             live': map<nat, set<nat>>) {
    && live.Keys <= zones.Keys && live'.Keys <= zones'.Keys
    && forall z, i :: LiveAt(live, z, i) && LiveAt(live', z, i) ==>
         Addr(zones'[z], i) == Addr(zones[z], i) && zones'[z].chunksize == zones[z].chunksize
  }

  /** Two live chunks never share a byte, nor does one reach into a zone header. */
  lemma LiveDisjoint(zoneSize: nat, zp: nat, zones: map<nat, Zone>, live: map<nat, set<nat>>, lists: seq<seq<nat>>,
                     cached: seq<nat>,
                     owner: seq<Owner>, usage: seq<Usage>, z: nat, i: nat, z': nat, i': nat)
    requires zp > 0 && zoneSize == zp * PAGE && ZonesListed(zoneSize, zones, live, lists, cached)
    requires ZonesPlaced(zones.Keys, zp, owner, usage)
    requires LiveAt(live, z, i) && LiveAt(live, z', i') && (z, i) != (z', i')
    ensures z in zones && z' in zones
    ensures Addr(zones[z], i) + zones[z].chunksize <= Addr(zones[z'], i')
      || Addr(zones[z'], i') + zones[z'].chunksize <= Addr(zones[z], i)
  {
    LiveInside(zoneSize, zones, live, lists, cached, z, i);
    LiveInside(zoneSize, zones, live, lists, cached, z', i');
    if z == z' {
      if i < i' {
        ChunksApart(zones[z], i, i');
      } else {
        ChunksApart(zones[z], i', i);
      }
    } else {
      ZonesApart(zones.Keys, zp, owner, usage, z, z');
    }
  }

  lemma ZonesApart(zs: set<nat>, zp: nat, owner: seq<Owner>, usage: seq<Usage>, z: nat, z': nat)
    requires ZonesPlaced(zs, zp, owner, usage) && z in zs && z' in zs && z != z' && zp > 0
    ensures z + zp <= z' || z' + zp <= z
  {
    assert OwnerAt(owner, z) == OfZone(z) && OwnerAt(owner, z') == OfZone(z');
  }

  lemma LiveInside(zoneSize: nat, zones: map<nat, Zone>, live: map<nat, set<nat>>, lists: seq<seq<nat>>,
                   cached: seq<nat>, z: nat, i: nat)
    requires ZonesListed(zoneSize, zones, live, lists, cached) && LiveAt(live, z, i)
    ensures z in zones && z !in cached && Active(zoneSize, z, zones[z], live[z], lists) && i < zones[z].nmax
    ensures z * PAGE + ZONE_HEADER <= Addr(zones[z], i) && Addr(zones[z], i) + zones[z].chunksize <= z * PAGE + zoneSize
  {
    hide LaidOut;
    assert Active(zoneSize, z, zones[z], live[z], lists);
    ChunkPlace(zoneSize, z, zones[z], i);
  }

  /** The page table leads from a live chunk to the header of its zone. */
  lemma LeadsToZone(zoneSize: nat, zp: nat, zones: map<nat, Zone>, live: map<nat, set<nat>>, lists: seq<seq<nat>>,
                    cached: seq<nat>,
                    owner: seq<Owner>, usage: seq<Usage>, z: nat, i: nat, q: nat)
    requires zoneSize == zp * PAGE && ZonesListed(zoneSize, zones, live, lists, cached)
    requires ZonesPlaced(zones.Keys, zp, owner, usage)
    requires LiveAt(live, z, i) && z in zones && q == Addr(zones[z], i) / PAGE
    ensures z <= q && UsageAt(usage, q) == Usage(SmallPage, q - z)
  {
    hide ZonesListed;
    hide Active;
    LiveInside(zoneSize, zones, live, lists, cached, z, i);
    assert zones[z].chunksize > 0 by { LiveSize(zoneSize, z, zones[z], live[z], lists); }
    PageOf(Addr(zones[z], i), z, zp);
    assert OwnerAt(owner, q) == OfZone(z);
  }

  lemma LiveSize(zoneSize: nat, z: nat, zn: Zone, live: set<nat>, lists: seq<seq<nat>>)
    requires Active(zoneSize, z, zn, live, lists)
    ensures zn.chunksize > 0
  {
  }

  lemma PageOf(a: nat, z: nat, zp: nat)
    requires z * PAGE <= a < z * PAGE + zp * PAGE
    ensures z <= a / PAGE < z + zp
  {
  }

  // ---- steps on zones and lists ---------------------------------------------------------------------

  lemma ActiveNew(zoneSize: nat, z: nat, zn: Zone, live: set<nat>, lists: seq<seq<nat>>)
    requires ZoneOk(zoneSize, z, zn, live) && zn.index < |lists| && (z in lists[zn.index] <==> zn.nfree > 0)
    ensures Active(zoneSize, z, zn, live, lists)
  {
  }

  /** A zone that stays in its list or out of it is as well off with the new lists. */
  lemma ActiveStays(zoneSize: nat, z: nat, zn: Zone, live: set<nat>, lists: seq<seq<nat>>, lists': seq<seq<nat>>)
    requires Active(zoneSize, z, zn, live, lists) && |lists'| == |lists|
    requires forall i :: 0 <= i < |lists| ==> (z in lists'[i] <==> z in lists[i])
    ensures Active(zoneSize, z, zn, live, lists')
  {
    hide ZoneOk;
  }

  /** One zone changes, and the list of its class with it. */
  lemma OneZone(zoneSize: nat, zones: map<nat, Zone>, live: map<nat, set<nat>>, lists: seq<seq<nat>>, cached: seq<nat>,
                z: nat, zn: Zone, lv: set<nat>, list: seq<nat>)
    requires ZonesListed(zoneSize, zones, live, lists, cached) && z !in cached && zn.index < NZONES
    requires z in zones ==> zones[z].index == zn.index
    requires ZoneOk(zoneSize, z, zn, lv) && Distinct(list) && (z in list <==> zn.nfree > 0)
    requires forall x :: x != z ==> (x in list <==> x in lists[zn.index])
    ensures ZonesListed(zoneSize, zones[z := zn], live[z := lv], lists[zn.index := list], cached)
  {
    hide ZoneOk, Active;
    var zones', live', lists' := zones[z := zn], live[z := lv], lists[zn.index := list];
    ActiveNew(zoneSize, z, zn, lv, lists');
    forall x | x in zones' && x !in cached ensures Active(zoneSize, x, zones'[x], live'[x], lists') {
      if x != z {
        ActiveStays(zoneSize, x, zones[x], live[x], lists, lists');
      }
    }
    forall i, x | 0 <= i < NZONES && x in lists'[i] ensures x in zones' && x !in cached && zones'[x].index == i {
      if x != z {
        assert x in lists[i];
      }
    }
  }

  /** A chunk from the first zone of its class. */
  lemma TakeListed(zoneSize: nat, zones: map<nat, Zone>, live: map<nat, set<nat>>, lists: seq<seq<nat>>,
                   cached: seq<nat>, zi: nat)
    returns (i: nat)
    requires ZonesListed(zoneSize, zones, live, lists, cached) && zi < NZONES && lists[zi] != []
    ensures var z := lists[zi][0];
      && z in zones && z in live && zones[z].index == zi && zones[z].nfree > 0 && zones[z].chunksize == ClassSize(zi)
      && (zones[z].uindex + 1 == zones[z].nmax ==> zones[z].freechunk != [])
      && i < zones[z].nmax && i !in live[z] && TakenAddr(zones[z]) == Addr(zones[z], i)
      && ZonesListed(zoneSize, zones[z := Taken(zones[z])], live[z := live[z] + {i}],
                     lists[zi := if zones[z].nfree == 1 then lists[zi][1..] else lists[zi]], cached)
  {
    hide FreedOk;
    hide Counted;
    hide ClassSize;
    var z := lists[zi][0];
    assert z in lists[zi];
    assert Active(zoneSize, z, zones[z], live[z], lists);
    i := TakeKeeps(zoneSize, z, zones[z], live[z]);
    HeadOff(lists[zi]);
    OneZone(zoneSize, zones, live, lists, cached, z, Taken(zones[z]), live[z] + {i},
            if zones[z].nfree == 1 then lists[zi][1..] else lists[zi]);
  }

  lemma HeadOff(list: seq<nat>)
    requires Distinct(list) && list != []
    ensures Distinct(list[1..]) && list[0] !in list[1..] && forall x :: x != list[0] ==> (x in list[1..] <==> x in list)
  {
  }

  /** A chunk goes back to its zone; a zone that was full is listed again. */
  lemma GiveBack(zoneSize: nat, zones: map<nat, Zone>, live: map<nat, set<nat>>, lists: seq<seq<nat>>, cached: seq<nat>,
                 z: nat, i: nat)
    requires ZonesListed(zoneSize, zones, live, lists, cached) && LiveAt(live, z, i)
    ensures z in zones && z !in cached && zones[z].index < NZONES
    ensures var zn := zones[z]; var list := lists[zn.index];
      var list' := if zn.nfree == 0 then [z] + list else list;
      && ZonesListed(zoneSize, zones[z := Returned(zn, Addr(zn, i))], live[z := live[z] - {i}],
                     lists[zn.index := list'], cached)
      && z in list'
  {
    hide FreedOk;
    hide Counted;
    hide LaidOut;
    assert Active(zoneSize, z, zones[z], live[z], lists);
    ReturnKeeps(zoneSize, z, zones[z], live[z], i);
    var list := lists[zones[z].index];
    OneZone(zoneSize, zones, live, lists, cached, z, Returned(zones[z], Addr(zones[z], i)), live[z] - {i},
            if zones[z].nfree == 0 then [z] + list else list);
  }

  /** A zone without live chunks leaves the list of its class for the zones kept in reserve. */
  lemma Retire(zoneSize: nat, zones: map<nat, Zone>, live: map<nat, set<nat>>, lists: seq<seq<nat>>, cached: seq<nat>,
               z: nat)
    requires ZonesListed(zoneSize, zones, live, lists, cached) && z in zones && z !in cached
    requires zones[z].nfree == zones[z].nmax
    ensures zones[z].index < NZONES && live[z] == {}
    ensures ZonesListed(zoneSize, zones, live, lists[zones[z].index := Remove(lists[zones[z].index], z)], [z] + cached)
  {
    hide Active, Remove;
    NothingLive(zoneSize, z, zones[z], live[z], lists);
    var zi := zones[z].index;
    RemoveFacts(lists[zi], z);
    var lists', cached' := lists[zi := Remove(lists[zi], z)], [z] + cached;
    forall x | x in zones && x !in cached' ensures Active(zoneSize, x, zones[x], live[x], lists') {
      ActiveStays(zoneSize, x, zones[x], live[x], lists, lists');
    }
    forall i, x | 0 <= i < NZONES && x in lists'[i] ensures x in zones && x !in cached' && zones[x].index == i {
      assert x in lists[i];
    }
  }

  lemma NothingLive(zoneSize: nat, z: nat, zn: Zone, live: set<nat>, lists: seq<seq<nat>>)
    requires Active(zoneSize, z, zn, live, lists) && zn.nfree == zn.nmax
    ensures zn.index < |lists| && live == {}
  {
    hide FreedOk, LaidOut;
  }

  /** A zone in reserve is put to use again for a class without free chunks. */
  lemma Reuse(zoneSize: nat, zones: map<nat, Zone>, live: map<nat, set<nat>>, lists: seq<seq<nat>>, cached: seq<nat>,
              zn: Zone)
    requires ZonesListed(zoneSize, zones, live, lists, cached) && cached != [] && zn.index < NZONES
    requires lists[zn.index] == []
    requires ZoneOk(zoneSize, cached[0], zn, {0}) && zn.nfree > 0
    ensures ZonesListed(zoneSize, zones[cached[0] := zn], live[cached[0] := {0}], lists[zn.index := [cached[0]]],
                        cached[1..])
  {
    hide ZoneOk, Active;
    var z := cached[0];
    HeadOff(cached);
    assert z in cached;
    var zones', live', lists' := zones[z := zn], live[z := {0}], lists[zn.index := [z]];
    ActiveNew(zoneSize, z, zn, {0}, lists');
    forall x | x in zones' && x !in cached[1..] ensures Active(zoneSize, x, zones'[x], live'[x], lists') {
      if x != z {
        ActiveStays(zoneSize, x, zones[x], live[x], lists, lists');
      }
    }
    forall i, x | 0 <= i < NZONES && x in lists'[i] ensures x in zones' && x !in cached[1..] && zones'[x].index == i {
      if i != zn.index {
        assert x in lists[i];
      }
    }
  }

  /** The first zone in reserve is given up. */
  lemma Release(zoneSize: nat, zones: map<nat, Zone>, live: map<nat, set<nat>>, lists: seq<seq<nat>>, cached: seq<nat>)
    requires ZonesListed(zoneSize, zones, live, lists, cached) && cached != []
    ensures ZonesListed(zoneSize, zones - {cached[0]}, live - {cached[0]}, lists, cached[1..])
  {
    hide Active;
    hide Distinct;
    var z := cached[0];
    HeadOff(cached);
    assert z in cached;
    var zones', live' := zones - {z}, live - {z};
    forall x | x in zones' && x !in cached[1..] ensures Active(zoneSize, x, zones'[x], live'[x], lists) {
      assert x in zones && x !in cached && zones'[x] == zones[x] && live'[x] == live[x];
    }
    forall i, x | 0 <= i < NZONES && x in lists[i] ensures x in zones' && x !in cached[1..] && zones'[x].index == i {
      assert x in zones && x !in cached;
    }
  }

  // ---- steps on pages -------------------------------------------------------------------------------

  ghost function Owned(owner: seq<Owner>, a: nat, n: nat, o: Owner): (r: seq<Owner>)
    ensures |r| == |owner|
    ensures forall q: nat :: OwnerAt(r, q) == if q < |owner| && a <= q < a + n then o else OwnerAt(owner, q)
  {
    seq(|owner|, q requires 0 <= q < |owner| => if a <= q < a + n then o else owner[q])
  }

  /** The table entries of a zone. */
  function ZoneEntries(usage: seq<Usage>, z: nat, n: nat): (r: seq<Usage>)
    ensures |r| == |usage|
    ensures forall q: nat ::
      UsageAt(r, q) == if q < |usage| && z <= q < z + n then Usage(SmallPage, q - z) else UsageAt(usage, q)
  {
    seq(|usage|, q requires 0 <= q < |usage| => if z <= q < z + n then Usage(SmallPage, q - z) else usage[q])
  }

  function FreeEntries(usage: seq<Usage>, z: nat, n: nat): (r: seq<Usage>)
    ensures |r| == |usage|
    ensures forall q: nat ::
      UsageAt(r, q) == if q < |usage| && z <= q < z + n then Usage(FreePage, 0) else UsageAt(usage, q)
  {
    seq(|usage|, q requires 0 <= q < |usage| => if z <= q < z + n then Usage(FreePage, 0) else usage[q])
  }

  /** Everything about pages. */
  ghost predicate Placed(runs: seq<Run>, owner: seq<Owner>, usage: seq<Usage>, zs: set<nat>, zp: nat,
                         larges: map<nat, nat>) {
    && |usage| == |owner| && zp > 0
    && PagesOk(runs, owner) && ZonesPlaced(zs, zp, owner, usage) && LargePlaced(larges, owner, usage)
  }

  /** Pages taken off the runs belonged to nobody. */
  lemma TakenPages(runs: seq<Run>, owner: seq<Owner>, a: nat, n: nat, runs': seq<Run>, o: Owner)
    requires PagesOk(runs, owner) && Takes(runs, Run(a, n), runs') && RunsOk(runs') && o != Nobody
    ensures forall q: nat :: a <= q < a + n ==> OwnerAt(owner, q) == Nobody
    ensures PagesOk(runs', Owned(owner, a, n, o))
  {
    hide Owned;
    forall q: nat | a <= q < a + n ensures OwnerAt(owner, q) == Nobody {
      assert Inside(Run(a, n), q);
    }
    forall p: nat ensures IsFree(runs', p) <==> OwnerAt(Owned(owner, a, n, o), p) == Nobody {
      assert Inside(Run(a, n), p) <==> a <= p < a + n;
    }
  }

  /** Pages given back belong to nobody again. */
  lemma GivenPages(runs: seq<Run>, owner: seq<Owner>, a: nat, n: nat, o: Owner)
    requires PagesOk(runs, owner) && o != Nobody && o != OfTable && forall q: nat :: a <= q < a + n ==>
      OwnerAt(owner, q) == o
    ensures Apart(runs, Run(a, n))
    ensures forall runs' :: RunsOk(runs') && Adds(runs, Run(a, n), runs') ==> PagesOk(runs', Owned(owner, a, n, Nobody))
  {
    hide Owned;
    forall p: nat | Inside(Run(a, n), p) ensures !IsFree(runs, p) {
      assert OwnerAt(owner, p) == o;
    }
    forall runs' | RunsOk(runs') && Adds(runs, Run(a, n), runs') ensures PagesOk(runs', Owned(owner, a, n, Nobody)) {
      forall p: nat ensures IsFree(runs', p) <==> OwnerAt(Owned(owner, a, n, Nobody), p) == Nobody {
        assert Inside(Run(a, n), p) <==> a <= p < a + n;
        assert a <= p < a + n ==> OwnerAt(owner, p) == o;
      }
    }
  }

  lemma PlaceZone(runs: seq<Run>, owner: seq<Owner>, usage: seq<Usage>, zs: set<nat>, zp: nat, larges: map<nat, nat>,
                  z: nat, runs': seq<Run>)
    requires Placed(runs, owner, usage, zs, zp, larges) && Takes(runs, Run(z, zp), runs') && RunsOk(runs')
    ensures z + zp <= |usage| && z !in zs && forall q: nat :: z <= q < z + zp ==> OwnerAt(owner, q) == Nobody
    ensures Placed(runs', Owned(owner, z, zp, OfZone(z)), ZoneEntries(usage, z, zp), zs + {z}, zp, larges)
  {
    hide Owned;
    hide ZoneEntries;
    TakenPages(runs, owner, z, zp, runs', OfZone(z));
    assert OwnerAt(owner, z) == Nobody;
    var last: nat := z + zp - 1;
    assert OwnerAt(owner, last) == Nobody;
    var owner', usage' := Owned(owner, z, zp, OfZone(z)), ZoneEntries(usage, z, zp);
    forall x, q: nat | x in zs + {z} && x <= q < x + zp ensures OwnerAt(owner', q) == OfZone(x) {
      if x != z {
        assert OwnerAt(owner, q) == OfZone(x);
      }
    }
    forall f | f in larges ensures UsageAt(usage', f) == Usage(LargePage, larges[f]) {
      assert OwnerAt(owner, f) == OfLarge(f);
    }
    forall f, q: nat | f in larges && f <= q < f + larges[f] ensures OwnerAt(owner', q) == OfLarge(f) {
      assert OwnerAt(owner, q) == OfLarge(f);
    }
  }

  lemma UnplaceZone(runs: seq<Run>, owner: seq<Owner>, usage: seq<Usage>, zs: set<nat>, zp: nat, larges: map<nat, nat>,
                    z: nat)
    requires Placed(runs, owner, usage, zs, zp, larges) && z in zs
    ensures Apart(runs, Run(z, zp)) && z + zp <= |usage| && forall q: nat :: z <= q < z + zp ==>
      OwnerAt(owner, q) == OfZone(z)
    ensures forall runs' :: RunsOk(runs') && Adds(runs, Run(z, zp), runs') ==>
      Placed(runs', Owned(owner, z, zp, Nobody), FreeEntries(usage, z, zp), zs - {z}, zp, larges)
  {
    hide Owned;
    hide FreeEntries;
    hide PagesOk;
    GivenPages(runs, owner, z, zp, OfZone(z));
    var last: nat := z + zp - 1;
    assert OwnerAt(owner, last) == OfZone(z);
    UnplaceZoneTables(owner, usage, zs, zp, larges, z);
  }

  lemma UnplaceZoneTables(owner: seq<Owner>, usage: seq<Usage>, zs: set<nat>, zp: nat, larges: map<nat, nat>, z: nat)
    requires |usage| == |owner| && zp > 0 && z in zs && ZonesPlaced(zs, zp, owner, usage)
    requires LargePlaced(larges, owner, usage)
    ensures ZonesPlaced(zs - {z}, zp, Owned(owner, z, zp, Nobody), FreeEntries(usage, z, zp))
    ensures LargePlaced(larges, Owned(owner, z, zp, Nobody), FreeEntries(usage, z, zp))
  {
    hide Owned, FreeEntries, LargePlaced;
    var owner', usage' := Owned(owner, z, zp, Nobody), FreeEntries(usage, z, zp);
    forall x, q: nat | x in zs - {z} && x <= q < x + zp ensures OwnerAt(owner', q) == OfZone(x) {
      assert OwnerAt(owner, q) == OfZone(x);
    }
    assert forall q: nat :: z <= q < z + zp ==> OwnerAt(owner, q) == OfZone(z);
    LargesStay(owner, usage, larges, z, zp, owner', usage');
  }

  /** Pages that belong to no large block may change hands. */
  lemma LargesStay(owner: seq<Owner>, usage: seq<Usage>, larges: map<nat, nat>, a: nat, n: nat,
                   owner': seq<Owner>, usage': seq<Usage>)
    requires LargePlaced(larges, owner, usage)
    requires forall q: nat :: a <= q < a + n ==> !OwnerAt(owner, q).OfLarge? && !OwnerAt(owner', q).OfLarge?
    requires forall q: nat :: !(a <= q < a + n) ==>
      OwnerAt(owner', q) == OwnerAt(owner, q) && UsageAt(usage', q) == UsageAt(usage, q)
    ensures LargePlaced(larges, owner', usage')
  {
    forall f | f in larges ensures UsageAt(usage', f) == Usage(LargePage, larges[f]) {
      assert OwnerAt(owner, f) == OfLarge(f);
    }
    forall f, q: nat | f in larges && f <= q < f + larges[f] ensures OwnerAt(owner', q) == OfLarge(f) {
      assert OwnerAt(owner, q) == OfLarge(f);
    }
  }

  lemma PlaceLarge(runs: seq<Run>, owner: seq<Owner>, usage: seq<Usage>, zs: set<nat>, zp: nat, larges: map<nat, nat>,
                   f: nat, n: nat, runs': seq<Run>)
    requires Placed(runs, owner, usage, zs, zp, larges) && Takes(runs, Run(f, n), runs') && RunsOk(runs') && n > 0
    ensures f + n <= |usage| && f !in larges && forall q: nat :: f <= q < f + n ==> OwnerAt(owner, q) == Nobody
    ensures Placed(runs', Owned(owner, f, n, OfLarge(f)), usage[f := Usage(LargePage, n)], zs, zp, larges[f := n])
  {
    hide Owned;
    TakenPages(runs, owner, f, n, runs', OfLarge(f));
    assert OwnerAt(owner, f) == Nobody;
    var last: nat := f + n - 1;
    assert OwnerAt(owner, last) == Nobody;
    var owner', usage', larges' := Owned(owner, f, n, OfLarge(f)), usage[f := Usage(LargePage, n)], larges[f := n];
    assert forall q: nat :: q != f ==> UsageAt(usage', q) == UsageAt(usage, q);
    forall x, q: nat | x in zs && x <= q < x + zp ensures OwnerAt(owner', q) == OfZone(x) {
      assert OwnerAt(owner, q) == OfZone(x);
    }
    forall g, q: nat | g in larges' && g <= q < g + larges'[g] ensures OwnerAt(owner', q) == OfLarge(g) {
      if g != f {
        assert OwnerAt(owner, q) == OfLarge(g);
      }
    }
  }

  lemma UnplaceLarge(runs: seq<Run>, owner: seq<Owner>, usage: seq<Usage>, zs: set<nat>, zp: nat, larges: map<nat, nat>,
                     f: nat)
    requires Placed(runs, owner, usage, zs, zp, larges) && f in larges
    ensures f < |usage| && larges[f] > 0 && usage[f] == Usage(LargePage, larges[f]) && Apart(runs, Run(f, larges[f]))
    ensures forall q: nat :: f <= q < f + larges[f] ==> OwnerAt(owner, q) == OfLarge(f)
    ensures forall runs' :: RunsOk(runs') && Adds(runs, Run(f, larges[f]), runs') ==>
      Placed(runs', Owned(owner, f, larges[f], Nobody), usage[f := Usage(LargePage, 0)], zs, zp, larges - {f})
  {
    hide Owned;
    hide PagesOk;
    var n := larges[f];
    GivenPages(runs, owner, f, n, OfLarge(f));
    assert OwnerAt(owner, f) == OfLarge(f);
    UnplaceLargeTables(owner, usage, zs, zp, larges, f);
  }

  lemma UnplaceLargeTables(owner: seq<Owner>, usage: seq<Usage>, zs: set<nat>, zp: nat, larges: map<nat, nat>, f: nat)
    requires |usage| == |owner| && zp > 0 && f in larges && ZonesPlaced(zs, zp, owner, usage)
    requires LargePlaced(larges, owner, usage)
    ensures f < |usage|
    ensures ZonesPlaced(zs, zp, Owned(owner, f, larges[f], Nobody), usage[f := Usage(LargePage, 0)])
    ensures LargePlaced(larges - {f}, Owned(owner, f, larges[f], Nobody), usage[f := Usage(LargePage, 0)])
  {
    hide Owned;
    assert OwnerAt(owner, f) == OfLarge(f);
    var owner', usage' := Owned(owner, f, larges[f], Nobody), usage[f := Usage(LargePage, 0)];
    assert forall q: nat :: q != f ==> UsageAt(usage', q) == UsageAt(usage, q);
    forall x, q: nat | x in zs && x <= q < x + zp ensures OwnerAt(owner', q) == OfZone(x) {
      assert OwnerAt(owner, q) == OfZone(x);
    }
    forall g, q: nat | g in larges - {f} && g <= q < g + larges[g] ensures OwnerAt(owner', q) == OfLarge(g) {
      assert OwnerAt(owner, q) == OfLarge(g);
    }
  }

  // ---- the allocator --------------------------------------------------------------------------------

  ghost predicate LivePlus(live: map<nat, set<nat>>, live': map<nat, set<nat>>, z: nat, i: nat) {
    !LiveAt(live, z, i) && forall x, j :: LiveAt(live', x, j) <==> LiveAt(live, x, j) || (x == z && j == i)
  }

  ghost predicate LiveMinus(live: map<nat, set<nat>>, live': map<nat, set<nat>>, z: nat, i: nat) {
    LiveAt(live, z, i) && forall x, j :: LiveAt(live', x, j) <==> LiveAt(live, x, j) && !(x == z && j == i)
  }

  /** The same chunks are live, in the same places. */
  ghost predicate NothingLost(zones: map<nat, Zone>, live: map<nat, set<nat>>, zones': map<nat, Zone>,
                              live': map<nat, set<nat>>) {
    && (forall x, j :: LiveAt(live', x, j) <==> LiveAt(live, x, j))
    && live'.Keys <= zones'.Keys && zones'.Keys <= zones.Keys && forall x :: x in zones' ==> zones'[x] == zones[x]
  }

  lemma TakenLive(zones: map<nat, Zone>, live: map<nat, set<nat>>, z: nat, i: nat)
    requires live.Keys == zones.Keys && z in zones && i !in live[z]
    requires zones[z].nfree > 0 && (zones[z].uindex + 1 == zones[z].nmax ==> zones[z].freechunk != [])
    ensures LivePlus(live, live[z := live[z] + {i}], z, i)
    ensures SameChunks(zones, live, zones[z := Taken(zones[z])], live[z := live[z] + {i}])
    ensures Addr(Taken(zones[z]), i) == Addr(zones[z], i)
  {
  }

  /** No run of free pages is as long as `n`. */
  ghost predicate NoRun(runs: seq<Run>, n: nat) {
    forall k :: 0 <= k < |runs| ==> runs[k].n < n
  }

  /** When a request is turned down: nothing is asked for, there is no zone of its class and neither a
      zone in reserve nor pages for one, or there are no pages for a large block. */
  ghost predicate Refused(zoneSize: nat, zonePages: nat, lists: seq<seq<nat>>, cached: seq<nat>, runs: seq<Run>,
                          size: nat) {
    || size == 0
    || (size < ZoneLimit(zoneSize) && 0 <= ZoneIndex(size) < |lists| && lists[ZoneIndex(size)] == [] && cached == []
        && NoRun(runs, zonePages))
    || (size >= ZoneLimit(zoneSize) && NoRun(runs, PageCount(size)))
  }

  /** The size that `rt_slab_realloc` asks for in place of a chunk: `zoneindex` has rounded it. */
  function Asked(size: nat): nat {
    if size < ZONE_LIMIT then ChunkSize(size) else size
  }

  /** The least number of pages that holds `size` bytes. */
  function PageCount(size: nat): (n: nat)
    ensures n * PAGE - PAGE < size <= n * PAGE
  {
    (size + PAGE - 1) / PAGE
  }

  /** What a request gets: a chunk of the smallest class that holds it, or as few pages as hold it. */
  ghost predicate RightSize(zoneSize: nat, size: nat, ref: Ref, room: nat) {
    if size < ZoneLimit(zoneSize)
    then ref.Chunk? && size <= room && forall zi: nat :: zi < NZONES && size <= ClassSize(zi) ==> room <= ClassSize(zi)
    else ref.Large? && room - PAGE < size <= room && room % PAGE == 0
  }

  lemma ChunkIsRight(zoneSize: nat, size: nat, z: nat, i: nat, room: nat)
    requires 0 < size < ZoneLimit(zoneSize) && room == ChunkSize(size)
    ensures RightSize(zoneSize, size, Chunk(z, i), room)
  {
    hide ClassSize, ChunkSize;
    ClassOf(size);
    forall zi: nat | zi < NZONES && size <= ClassSize(zi) ensures room <= ClassSize(zi) {
      LeastClass(size, zi);
    }
  }

  // ---- zones without a live chunk -------------------------------------------------------------------

  predicate Idle(live: map<nat, set<nat>>, z: nat) {
    z in live && live[z] == {}
  }

  /** Leaving `but` aside, a list holds at most one zone without a live chunk. */
  ghost predicate IdleBut(live: map<nat, set<nat>>, lists: seq<seq<nat>>, but: Option<nat>) {
    forall i, x, y :: 0 <= i < |lists| && x in lists[i] && y in lists[i] ==>
      Idle(live, x) && Idle(live, y) && Some(x) != but && Some(y) != but ==> x == y
  }

  /** Of every class at most one zone without a live chunk is kept. */
  ghost predicate OneIdle(live: map<nat, set<nat>>, lists: seq<seq<nat>>) {
    IdleBut(live, lists, None)
  }

  /** Lists that lose zones, and zones of which more is live. */
  lemma IdleTake(live: map<nat, set<nat>>, lists: seq<seq<nat>>, zi: nat, list: seq<nat>, z: nat, i: nat)
    requires OneIdle(live, lists) && zi < |lists| && z in live && forall x :: x in list ==> x in lists[zi]
    ensures OneIdle(live[z := live[z] + {i}], lists[zi := list])
  {
  }

  lemma IdleNew(live: map<nat, set<nat>>, lists: seq<seq<nat>>, zi: nat, z: nat)
    requires OneIdle(live, lists) && zi < |lists|
    ensures OneIdle(live[z := {0}], lists[zi := [z]])
  {
  }

  lemma IdlePut(live: map<nat, set<nat>>, lists: seq<seq<nat>>, zi: nat, z: nat, list: seq<nat>, i: nat)
    requires OneIdle(live, lists) && zi < |lists| && z in live
    requires list == lists[zi] || list == [z] + lists[zi]
    ensures IdleBut(live[z := live[z] - {i}], lists[zi := list], Some(z))
  {
  }

  /** The zone leaves its list, and the heap if there are enough in reserve. */
  lemma IdleRetire(live: map<nat, set<nat>>, lists: seq<seq<nat>>, zi: nat, z: nat, live': map<nat, set<nat>>)
    requires IdleBut(live, lists, Some(z)) && zi < |lists| && Distinct(lists[zi])
    requires forall j :: 0 <= j < |lists| && j != zi ==> z !in lists[j]
    requires forall x :: Idle(live', x) ==> Idle(live, x)
    ensures OneIdle(live', lists[zi := Remove(lists[zi], z)])
  {
    hide Remove;
    RemoveFacts(lists[zi], z);
  }

  /** The zone stays, because something in it is live or no other zone of its class is listed. */
  lemma IdleStays(live: map<nat, set<nat>>, lists: seq<seq<nat>>, zi: nat, z: nat)
    requires IdleBut(live, lists, Some(z)) && zi < |lists|
    requires forall j :: 0 <= j < |lists| && j != zi ==> z !in lists[j]
    requires !Idle(live, z) || lists[zi] == [z]
    ensures OneIdle(live, lists)
  {
  }

  lemma ListedOnce(zoneSize: nat, zones: map<nat, Zone>, live: map<nat, set<nat>>, lists: seq<seq<nat>>,
                   cached: seq<nat>, z: nat)
    requires ZonesListed(zoneSize, zones, live, lists, cached) && z in zones && z !in cached
    ensures zones[z].index < |lists| && Distinct(lists[zones[z].index])
    ensures forall j :: 0 <= j < |lists| && j != zones[z].index ==> z !in lists[j]
    ensures zones[z].nfree == zones[z].nmax <==> Idle(live, z)
  {
    hide LaidOut, FreedOk;
    assert Active(zoneSize, z, zones[z], live[z], lists);
  }

  lemma AloneOrLive(empty: bool, list: seq<nat>, z: nat)
    requires z in list && !(empty && (IndexOf(list, z) + 1 < |list| || list[0] != z))
    ensures !empty || list == [z]
  {
  }

  /** When nothing is live, no more than one zone of every class and the two in reserve are held back
      from the pages. */
  lemma FewHeldBack(zoneSize: nat, zones: map<nat, Zone>, live: map<nat, set<nat>>, lists: seq<seq<nat>>,
                    cached: seq<nat>, i: nat, x: nat, y: nat)
    requires ZonesListed(zoneSize, zones, live, lists, cached) && OneIdle(live, lists)
    requires forall z :: z in live ==> live[z] == {}
    requires i < |lists| && x in lists[i] && y in lists[i]
    ensures x == y
  {
    hide Active;
    assert Idle(live, x) && Idle(live, y);
  }

  // ---- what is live ---------------------------------------------------------------------------------

  /** What a pointer handed out stands for. */
  datatype Ref = Chunk(z: nat, i: nat) | Large(first: nat)

  datatype View = View(zones: map<nat, Zone>, live: map<nat, set<nat>>, larges: map<nat, nat>)

  ghost predicate Refers(v: View, ref: Ref, p: nat) {
    match ref
    case Chunk(z, i) => LiveAt(v.live, z, i) && z in v.zones && p == Addr(v.zones[z], i)
    case Large(f) => f in v.larges && p == f * PAGE
  }

  /** The bytes behind a pointer. */
  function Room(v: View, ref: Ref): nat {
    match ref
    case Chunk(z, i) => if z in v.zones then v.zones[z].chunksize else 0
    case Large(f) => if f in v.larges then v.larges[f] * PAGE else 0
  }

  /** Everything live has its own bytes in a heap of `end` bytes. */
  ghost predicate Sound(v: View, end: nat) {
    && (forall a, b, p: nat, q: nat :: Refers(v, a, p) && Refers(v, b, q) && a != b ==>
          p + Room(v, a) <= q || q + Room(v, b) <= p)
    && (forall a, p: nat :: Refers(v, a, p) ==> 8 <= Room(v, a) && p + Room(v, a) <= end)
  }

  /** `a` at `p` is live too now, and everything else that was. */
  ghost predicate Gains(v: View, w: View, a: Ref, p: nat) {
    && Refers(w, a, p)
    && (forall b, q: nat :: Refers(v, b, q) ==> b != a && Refers(w, b, q) && Room(w, b) == Room(v, b))
    && (forall b, q: nat :: Refers(w, b, q) && b != a ==> Refers(v, b, q))
  }

  ghost predicate Loses(v: View, w: View, a: Ref, p: nat) {
    && Refers(v, a, p)
    && (forall b, q: nat :: Refers(v, b, q) && b != a ==> Refers(w, b, q) && Room(w, b) == Room(v, b))
    && (forall b, q: nat :: Refers(w, b, q) ==> b != a && Refers(v, b, q))
  }

  /** `b` at `q` is live in place of `a` at `p`. */
  ghost predicate Replaces(v: View, w: View, a: Ref, p: nat, b: Ref, q: nat) {
    && Refers(v, a, p) && Refers(w, b, q)
    && (forall c, x: nat :: Refers(v, c, x) && c != a ==> c != b && Refers(w, c, x) && Room(w, c) == Room(v, c))
    && (forall c, x: nat :: Refers(w, c, x) && c != b ==> c != a && Refers(v, c, x))
  }

  /** The bytes of everything that is live in `v`, but for `but`, are the same. */
  ghost predicate Kept(v: View, but: Option<Ref>, data: seq<int>, data': seq<int>) {
    && |data'| == |data|
    && forall a, p: nat, x :: Refers(v, a, p) && Some(a) != but && p <= x < p + Room(v, a) && x < |data| ==>
      data'[x] == data[x]
  }

  /** `b` at `q` is in place of `a` at `p`, with room for `n` bytes and as many of the old bytes as fit;
      nothing else that is live changed its place or its bytes. */
  ghost predicate Resized(v: View, data: seq<int>, a: Ref, p: nat, n: nat, w: View, data': seq<int>, b: Ref, q: nat) {
    && Replaces(v, w, a, p, b, q) && n <= Room(w, b) && Kept(w, Some(b), data, data')
    && var m := if Room(v, a) < n then Room(v, a) else n;
       p + m <= |data| && q + m <= |data'| && data'[q..q + m] == data[p..p + m]
  }

  lemma KeptTrans(v: View, but: Option<Ref>, d: seq<int>, d1: seq<int>, d2: seq<int>)
    requires Kept(v, but, d, d1) && Kept(v, but, d1, d2)
    ensures Kept(v, but, d, d2)
  {
    hide Refers, Room;
    forall a, p: nat, x | Refers(v, a, p) && Some(a) != but && p <= x < p + Room(v, a) && x < |d|
      ensures d2[x] == d[x]
    {
      assert d2[x] == d1[x] && d1[x] == d[x];
    }
  }

  // ---- where the allocator writes -------------------------------------------------------------------

  /** Size of the link in a free chunk, and of the link and the count in the first page of a run. */
  const LINK: nat := 8
  const RUN_HEAD: nat := 16

  /** Byte `x` belongs to a record of the allocator: the head of a run of free pages, the header of a
      zone, or the table of pages. */
  predicate Record(runs: seq<Run>, zs: set<nat>, table: nat, tablePages: nat, x: nat) {
    || (exists i :: 0 <= i < |runs| && runs[i].start * PAGE <= x < runs[i].start * PAGE + RUN_HEAD)
    || (x / PAGE in zs && x % PAGE < ZONE_HEADER)
    || table * PAGE <= x < (table + tablePages) * PAGE
  }

  /** All records rewritten; the bytes they lie on are lost. */
  function Rewritten(data: seq<int>, runs: seq<Run>, zs: set<nat>, table: nat, tablePages: nat): (r: seq<int>)
    ensures |r| == |data|
  {
    seq(|data|, x requires 0 <= x < |data| => if Record(runs, zs, table, tablePages, x) then 0 else data[x])
  }

  /** `n` bytes copied from `p` to `q`. */
  function Copied(data: seq<int>, p: nat, q: nat, n: nat): (r: seq<int>)
    requires p + n <= |data|
    ensures |r| == |data|
  {
    seq(|data|, x requires 0 <= x < |data| => if q <= x < q + n then data[x - q + p] else data[x])
  }

  /** `n` bytes at `p` overwritten. */
  function Stamp(data: seq<int>, p: nat, n: nat): (r: seq<int>)
    ensures |r| == |data|
  {
    seq(|data|, x requires 0 <= x < |data| => if p <= x < p + n then 0 else data[x])
  }

  ghost predicate TableKept(owner: seq<Owner>, table: nat, tablePages: nat) {
    forall q: nat :: table <= q < table + tablePages ==> OwnerAt(owner, q) == OfTable
  }

  lemma TableStays(owner: seq<Owner>, a: nat, n: nat, o: Owner, table: nat, tablePages: nat)
    requires TableKept(owner, table, tablePages) && forall q: nat :: a <= q < a + n && q < |owner| ==>
      OwnerAt(owner, q) != OfTable
    ensures TableKept(Owned(owner, a, n, o), table, tablePages)
  {
    hide Owned;
    forall q: nat | table <= q < table + tablePages ensures OwnerAt(Owned(owner, a, n, o), q) == OfTable {
      assert OwnerAt(owner, q) == OfTable;
    }
  }

  class SlabHeap {
    const pageCount: nat       // the pages between heap_start and heap_end
    const zoneSize: nat
    const zonePages: nat       // zone_page_cnt
    const pages: PageList      // page_list
    const table: nat           // the first page of memusage
    const tablePages: nat
    var data: seq<int>         // the bytes of the heap
    var usage: seq<Usage>      // memusage
    var zones: map<nat, Zone>  // zone headers by the number of their first page
    var lists: seq<seq<nat>>   // zone_array
    var cached: seq<nat>       // zone_free
    var cachedCount: nat       // zone_free_cnt
    ghost var owner: seq<Owner>
    ghost var live: map<nat, set<nat>>
    ghost var larges: map<nat, nat>

    ghost predicate Valid()
      reads this, pages
    {
      && IsZoneSize(zoneSize) && zoneSize == zonePages * PAGE
      && Placed(pages.runs, owner, usage, zones.Keys, zonePages, larges)
      && ZonesListed(zoneSize, zones, live, lists, cached)
      && cachedCount == |cached| <= 2 && |usage| == pageCount
      && |data| == pageCount * PAGE && TableKept(owner, table, tablePages)
    }

    ghost function Live(): View
      reads this
    {
      View(zones, live, larges)
    }

    /** `rt_slab_init` for a heap of `npages` pages, some of which hold the table of pages. */
    constructor (npages: nat)
      requires npages > 0
      ensures Valid() && fresh(pages) && pageCount == npages && zones == map[] && larges == map[] && cached == []
      ensures OneIdle(live, lists)
    {
      pageCount := npages;
      var size := PickZoneSize(npages * PAGE);
      zoneSize, zonePages := size, size / PAGE;
      var list := new PageList(0, npages);
      var n := PageCount(npages * 4);
      var first := list.Alloc(n);
      pages := list;
      table, tablePages := if first == None then 0 else first.value, if first == None then 0 else n;
      usage := seq(npages, _ => Usage(FreePage, 0));
      zones, lists, cached, cachedCount := map[], seq(NZONES, _ => []), [], 0;
      live, larges := map[], map[];
      owner :=
        if first == None then seq(npages, _ => Nobody) else Owned(seq(npages, _ => Nobody), first.value, n, OfTable);
      data := seq(npages * PAGE, _ => 0);
      new;
      TableOk(npages, n, first, pages.runs, owner);
    }

    /** `rt_slab_alloc`; `ref` is what is handed out. */
    method Alloc(size: nat) returns (r: Option<nat>, ghost ref: Ref)
      requires Valid()
      modifies this, pages
      ensures Valid()
      ensures r == None <==> Refused(zoneSize, zonePages, old(lists), old(cached), old(pages.runs), size)
      ensures r == None ==> Live() == old(Live()) && data == old(data)
      ensures r != None ==> Gains(old(Live()), Live(), ref, r.value) && size <= Room(Live(), ref)
      ensures r != None ==> RightSize(zoneSize, size, ref, Room(Live(), ref))
      ensures Kept(Live(), None, old(data), data)
      ensures OneIdle(old(live), old(lists)) ==> OneIdle(live, lists)
    {
      hide Placed, ZonesListed, LivePlus, SameChunks, Gains, Kept, NoRun, Addr, Refers, Rewritten, ChunkSize;
      ghost var z, i;
      r, z, i := HandOut(size);
      ref := if size < ZoneLimit(zoneSize) then Chunk(z, i) else Large(z);
      if r != None {
        if size < ZoneLimit(zoneSize) {
          ChunkGained(old(Live()), Live(), z, i);
          ChunkIsRight(zoneSize, size, z, i, zones[z].chunksize);
        } else {
          LargeGained(old(Live()), Live(), z, size);
        }
        RecordsElsewhere(this);
        data := Rewritten(data, pages.runs, zones.Keys, table, tablePages);
      } else {
        KeptSame(Live(), data);
      }
    }

    /** The choice of a chunk or of pages; `z` and `i` are the zone and the chunk. */
    method HandOut(size: nat) returns (r: Option<nat>, ghost z: nat, ghost i: nat)
      requires Valid()
      modifies this`usage, this`zones, this`lists, this`cached, this`cachedCount, this`owner, this`live, this`larges,
        pages
      ensures Valid()
      ensures size == 0 ==> r == None
      ensures r == None ==> live == old(live) && larges == old(larges) && zones == old(zones)
      ensures 0 < size < ZoneLimit(zoneSize) ==>
        && 0 <= ZoneIndex(size) < |old(lists)| && larges == old(larges)
        && (r == None <==> old(lists)[ZoneIndex(size)] == [] && old(cached) == [] && NoRun(old(pages.runs), zonePages))
        && (r != None ==> LivePlus(old(live), live, z, i) && z in zones && r.value == Addr(zones[z], i)
                          && zones[z].chunksize == ChunkSize(size) >= size
                          && SameChunks(old(zones), old(live), zones, live))
      ensures size >= ZoneLimit(zoneSize) ==>
        && live == old(live) && zones == old(zones)
        && (r == None <==> NoRun(old(pages.runs), PageCount(size)))
        && (r != None ==> z !in old(larges) && r.value == z * PAGE && larges == old(larges)[z := PageCount(size)])
      ensures OneIdle(old(live), old(lists)) ==> OneIdle(live, lists)
    {
      hide Placed;
      hide ZonesListed;
      hide LivePlus;
      hide SameChunks;
      z, i := 0, 0;
      if size == 0 {
        return None, 0, 0;
      }
      if size >= ZoneLimit(zoneSize) {
        r, z := AllocLarge(size);
        return;
      }
      ClassOf(size);
      ListCount(zoneSize, zones, live, lists, cached);
      var n, zi := ChunkSize(size), ZoneIndex(size);
      if lists[zi] != [] {
        r, z, i := TakeChunk(zi);
        return;
      }
      r, z, i := NewZone(size, n, zi);
    }

    /** Large requests get pages of their own. */
    method AllocLarge(size: nat) returns (r: Option<nat>, ghost f: nat)
      requires Valid() && size > 0
      modifies this`usage, this`owner, this`larges, pages
      ensures Valid()
      ensures r == None <==> NoRun(old(pages.runs), PageCount(size))
      ensures r == None ==> larges == old(larges)
      ensures r != None ==> f !in old(larges) && r.value == f * PAGE && larges == old(larges)[f := PageCount(size)]
    {
      hide Placed;
      hide ZonesListed;
      hide Takes;
      f := 0;
      var n := PageCount(size);
      RunsKnown(pages.runs, owner, usage, zones.Keys, zonePages, larges);
      ghost var runs := pages.runs;
      var first := pages.Alloc(n);
      if first == None {
        return None, 0;
      }
      f := first.value;
      PlaceLarge(runs, owner, usage, zones.Keys, zonePages, larges, f, n, pages.runs);
      usage := usage[first.value := Usage(LargePage, n)];
      TableStays(owner, f, n, OfLarge(f), table, tablePages);
      owner := Owned(owner, f, n, OfLarge(f));
      larges := larges[f := n];
      return Some(first.value * PAGE), f;
    }

    /** A chunk of the first listed zone of class `zi`. */
    method TakeChunk(zi: nat) returns (r: Option<nat>, ghost z: nat, ghost i: nat)
      requires Valid() && zi < |lists| == NZONES && lists[zi] != []
      modifies this`zones, this`lists, this`live
      ensures Valid() && r != None && LivePlus(old(live), live, z, i) && z in zones && r.value == Addr(zones[z], i)
      ensures zones[z].chunksize == ClassSize(zi) && SameChunks(old(zones), old(live), zones, live)
      ensures z == old(lists)[zi][0] && z in old(zones) && zones == old(zones)[z := zones[z]]
      ensures var zn := old(zones)[z];
        if zn.uindex + 1 != zn.nmax then r == Some(Addr(zn, zn.uindex + 1)) && zones[z].uindex == zn.uindex + 1
        else zn.freechunk != [] && r == Some(zn.freechunk[0]) && zones[z].freechunk == zn.freechunk[1..]
      ensures OneIdle(old(live), old(lists)) ==> OneIdle(live, lists)
    {
      hide Placed, ZonesListed, ClassSize, LivePlus, SameChunks, TableKept, Addr, OneIdle;
      ListCount(zoneSize, zones, live, lists, cached);
      i := TakeListed(zoneSize, zones, live, lists, cached, zi);
      var zone := lists[zi][0];
      z := zone;
      var zn := zones[zone];
      var addr := TakenAddr(zn);
      zones := zones[zone := zn.(nfree := zn.nfree - 1)];
      if zones[zone].nfree == 0 {
        lists := lists[zi := lists[zi][1..]];
      }
      if zn.uindex + 1 != zn.nmax {
        zones := zones[zone := zones[zone].(uindex := zn.uindex + 1)];
      } else {
        zones := zones[zone := zones[zone].(freechunk := zn.freechunk[1..])];
      }
      TakenLive(old(zones), live, zone, i);
      if OneIdle(live, old(lists)) {
        IdleTake(live, old(lists), zi, lists[zi], zone, i);
      }
      live := live[zone := live[zone] + {i}];
      assert zones == old(zones)[zone := Taken(zn)];
      assert lists == old(lists)[zi := if zn.nfree == 1 then old(lists)[zi][1..] else old(lists)[zi]];
      assert zones.Keys == old(zones).Keys;
      return Some(addr), z, i;
    }

    /** A zone for a class that has none: one in reserve, or new pages. */
    method NewZone(size: nat, n: nat, zi: nat) returns (r: Option<nat>, ghost z: nat, ghost i: nat)
      requires Valid() && 0 < size < ZoneLimit(zoneSize) && n == ChunkSize(size) && zi == ZoneIndex(size)
      requires zi < |lists| == NZONES && lists[zi] == []
      modifies this`usage, this`zones, this`lists, this`cached, this`cachedCount, this`owner, this`live, pages
      ensures Valid() && larges == old(larges)
      ensures r == None <==> old(cached) == [] && NoRun(old(pages.runs), zonePages)
      ensures r == None ==> live == old(live) && zones == old(zones)
      ensures r != None ==> LivePlus(old(live), live, z, i) && z in zones && r.value == Addr(zones[z], i)
      ensures r != None ==> zones[z].chunksize == n && SameChunks(old(zones), old(live), zones, live)
      ensures OneIdle(old(live), old(lists)) ==> OneIdle(live, lists)
    {
      hide Placed, ZonesListed, Takes, ChunkOffset, ChunkCount, LivePlus, SameChunks, Owned, ZoneEntries, TableKept,
        ZoneOk, ClassSize, OneIdle;
      z, i := 0, 0;
      ListCount(zoneSize, zones, live, lists, cached);
      RunsKnown(pages.runs, owner, usage, zones.Keys, zonePages, larges);
      var zone;
      if cached != [] {
        zone := cached[0];
        FreshOk(zoneSize, zone, size);
        ReuseKnown(zoneSize, zones, live, lists, cached, Fresh(zoneSize, zone, n, zi));
        Reuse(zoneSize, zones, live, lists, cached, Fresh(zoneSize, zone, n, zi));
        cached := cached[1..];
        cachedCount := cachedCount - 1;
      } else {
        ghost var runs := pages.runs;
        var first := pages.Alloc(zonePages);
        if first == None {
          return None, 0, 0;
        }
        zone := first.value;
        PlaceZone(runs, owner, usage, zones.Keys, zonePages, larges, zone, pages.runs);
        FreshOk(zoneSize, zone, size);
        AddZone(zoneSize, zones, live, lists, Fresh(zoneSize, zone, n, zi), zone);
        MarkZone(zone);
        TableStays(owner, zone, zonePages, OfZone(zone), table, tablePages);
        owner := Owned(owner, zone, zonePages, OfZone(zone));
      }
      z := zone;
      assert [zone] + lists[zi] == [zone];
      zones := zones[zone := Fresh(zoneSize, zone, n, zi)];
      if OneIdle(live, lists) {
        IdleNew(live, lists, zi, zone);
      }
      lists := lists[zi := [zone] + lists[zi]];
      live := live[zone := {0}];
      return Some(Addr(zones[zone], 0)), zone, 0;
    }

    /** Fills in the table for the pages of a zone. */
    method MarkZone(z: nat)
      requires z + zonePages <= |usage|
      modifies this`usage
      ensures usage == ZoneEntries(old(usage), z, zonePages)
    {
      for off := 0 to zonePages
        invariant |usage| == |old(usage)|
        invariant forall q :: 0 <= q < |usage| ==>
          usage[q] == if z <= q < z + off then Usage(SmallPage, q - z) else old(usage)[q]
      {
        usage := usage[z + off := Usage(SmallPage, off)];
      }
    }

    /** `rt_slab_realloc` of what `ref` names; `ref'` is what the caller has then. A chunk stays if the
        new size has the same chunk size; otherwise as many bytes as fit are copied. */
    method Realloc(ptr: Option<nat>, size: nat, ghost ref: Ref) returns (r: Option<nat>, ghost ref': Ref)
      requires Valid() && (ptr != None ==> Refers(Live(), ref, ptr.value))
      modifies this, pages
      ensures Valid()
      ensures r == None && (ptr == None || size > 0) ==> Live() == old(Live()) && data == old(data)
      ensures ptr == None && r != None ==>
        Gains(old(Live()), Live(), ref', r.value) && size <= Room(Live(), ref') && Kept(Live(), None, old(data), data)
      ensures ptr == None ==>
        (r == None <==> Refused(zoneSize, zonePages, old(lists), old(cached), old(pages.runs), size))
      ensures ptr != None && size == 0 ==>
        r == None && Loses(old(Live()), Live(), ref, ptr.value) && Kept(Live(), None, old(data), data)
      ensures ptr != None && size > 0 && ref.Large? ==>
        (r == None <==> Refused(zoneSize, zonePages, old(lists), old(cached), old(pages.runs), size))
      ensures ptr != None && size > 0 && ref.Chunk? ==>
        if Room(old(Live()), ref) == Asked(size)
        then r == ptr && ref' == ref && Live() == old(Live()) && data == old(data)
        else r == None <==> Refused(zoneSize, zonePages, old(lists), old(cached), old(pages.runs), Asked(size))
      ensures ptr != None && r != None ==>
        Resized(old(Live()), old(data), ref, ptr.value, size, Live(), data, ref', r.value)
      ensures OneIdle(old(live), old(lists)) ==> OneIdle(live, lists)
    {
      hide Placed, ZonesListed, Gains, Loses, Kept, Refused, Resized, Addr;
      ref' := ref;
      if ptr == None {
        r, ref' := Alloc(size);
        return;
      }
      if size == 0 {
        Free(ptr, ref);
        return None, ref;
      }
      EntryOf(pages.runs, owner, usage, zones, zonePages, zoneSize, larges, live, lists, cached, ref, ptr.value);
      var q := ptr.value / PAGE;
      var entry := usage[q];
      if entry.kind == LargePage {
        LargeSize(pages.runs, owner, usage, zones.Keys, zonePages, larges, q);
        var osize := entry.size * PAGE;
        r, ref' := Move(ptr.value, size, size, osize, ref);
        return;
      }
      var z := q - entry.size;
      var n := if size < ZONE_LIMIT then ChunkSize(size) else size;
      AskedEnough(size);
      if zones[z].chunksize == n {
        HeapSound(this);
        Unmoved(Live(), data, pageCount * PAGE, ref, ptr.value, size);
        return ptr, ref;
      }
      r, ref' := Move(ptr.value, size, n, zones[z].chunksize, ref);
    }

    /** Allocates `n` bytes, copies what fits of the old `osize` bytes and frees. */
    method Move(ptr: nat, ghost size: nat, n: nat, osize: nat, ghost ref: Ref) returns (r: Option<nat>, ghost ref': Ref)
      requires Valid() && Refers(Live(), ref, ptr) && osize == Room(Live(), ref) && 0 < size <= n
      modifies this, pages
      ensures Valid()
      ensures r == None <==> Refused(zoneSize, zonePages, old(lists), old(cached), old(pages.runs), n)
      ensures r == None ==> Live() == old(Live()) && data == old(data)
      ensures r != None ==> Resized(old(Live()), old(data), ref, ptr, size, Live(), data, ref', r.value)
      ensures OneIdle(old(live), old(lists)) ==> OneIdle(live, lists)
    {
      hide Placed, ZonesListed, Gains, Loses, Kept, Refused, Resized, Refers, Copied;
      ghost var v, d := Live(), data;
      r, ref' := Alloc(n);
      if r == None {
        return;
      }
      ghost var w, d1 := Live(), data;
      HeapSound(this);
      var m := if n > osize then osize else n;
      MoveFits(v, w, pageCount * PAGE, ref, ptr, ref', r.value);
      data := Copied(data, ptr, r.value, m);
      ghost var d2 := data;
      Free(Some(ptr), ref);
      MoveDone(v, w, Live(), pageCount * PAGE, ref, ptr, ref', r.value, m, size, d, d1, d2, data);
    }

    /** `rt_slab_free` of what `ref` names. */
    method Free(ptr: Option<nat>, ghost ref: Ref)
      requires Valid() && (ptr != None ==> Refers(Live(), ref, ptr.value))
      modifies this, pages
      ensures Valid()
      ensures if ptr == None then Live() == old(Live()) && data == old(data)
        else Loses(old(Live()), Live(), ref, ptr.value)
      ensures Kept(Live(), None, old(data), data)
      ensures OneIdle(old(live), old(lists)) ==> OneIdle(live, lists)
    {
      hide Placed, ZonesListed, LiveMinus, SameChunks, Loses, Kept, Rewritten, Addr;
      if ptr == None {
        KeptSame(Live(), data);
        return;
      }
      EntryOf(pages.runs, owner, usage, zones, zonePages, zoneSize, larges, live, lists, cached, ref, ptr.value);
      var q := ptr.value / PAGE;
      var entry := usage[q];
      if entry.kind == LargePage {
        FreeLarge(q);
        LargeLost(old(Live()), Live(), q);
        RecordsElsewhere(this);
        data := Rewritten(data, pages.runs, zones.Keys, table, tablePages);
        return;
      }
      FreeChunk(q - entry.size, ptr.value, ref.i);
    }

    /** Gives the pages of a large block back. */
    method FreeLarge(q: nat)
      requires Valid() && q in larges
      modifies this`usage, this`owner, this`larges, pages
      ensures Valid() && larges == old(larges) - {q}
    {
      hide Placed;
      hide ZonesListed;
      hide Adds;
      hide Apart;
      RunsKnown(pages.runs, owner, usage, zones.Keys, zonePages, larges);
      UnplaceLarge(pages.runs, owner, usage, zones.Keys, zonePages, larges, q);
      var n := usage[q].size;
      usage := usage[q := usage[q].(size := 0)];
      pages.Free(q, n);
      TableStays(owner, q, n, Nobody, table, tablePages);
      owner := Owned(owner, q, n, Nobody);
      larges := larges - {q};
    }

    /** Gives a chunk back to its zone, and a zone without live chunks to the reserve. The link of the
        freed chunk is stored in the chunk. */
    method FreeChunk(z: nat, ptr: nat, ghost i: nat)
      requires Valid() && Refers(Live(), Chunk(z, i), ptr)
      modifies this, pages
      ensures Valid() && Loses(old(Live()), Live(), Chunk(z, i), ptr)
      ensures Kept(Live(), None, old(data), data)
      ensures OneIdle(old(live), old(lists)) ==> OneIdle(live, lists)
    {
      hide Placed, ZonesListed, LiveMinus, SameChunks, Remove, Loses, Kept, Rewritten, Stamp, NothingLost, Addr;
      hide OneIdle, IdleBut;
      ghost var v, d := Live(), data;
      HeapSound(this);
      PutChunk(z, ptr, i);
      ChunkLost(v, Live(), z, i);
      LinkElsewhere(v, Live(), pageCount * PAGE, Chunk(z, i), ptr, data);
      data := Stamp(data, ptr, LINK);
      ghost var w, d1 := Live(), data;
      RecordsElsewhere(this);
      data := Rewritten(data, pages.runs, zones.Keys, table, tablePages);
      KeptTrans(w, None, d, d1, data);
      var zi := zones[z].index;
      if zones[z].nfree == zones[z].nmax && (IndexOf(lists[zi], z) + 1 < |lists[zi]| || lists[zi][0] != z) {
        ghost var d2 := data;
        RetireZone(z, zi);
        SameLive(v, w, Live(), Chunk(z, i), ptr, d, d2);
        RecordsElsewhere(this);
        data := Rewritten(data, pages.runs, zones.Keys, table, tablePages);
        KeptTrans(Live(), None, d, d2, data);
      } else if IdleBut(live, lists, Some(z)) {
        ListedOnce(zoneSize, zones, live, lists, cached, z);
        AloneOrLive(zones[z].nfree == zones[z].nmax, lists[zi], z);
        IdleStays(live, lists, zi, z);
      }
    }

    method PutChunk(z: nat, ptr: nat, ghost i: nat)
      requires Valid() && LiveAt(live, z, i) && z in zones && ptr == Addr(zones[z], i)
      modifies this`zones, this`live, this`lists
      ensures Valid() && LiveMinus(old(live), live, z, i) && SameChunks(old(zones), old(live), zones, live)
      ensures z in zones && z !in cached && zones[z].index < |lists| && z in lists[zones[z].index]
      ensures OneIdle(old(live), old(lists)) ==> IdleBut(live, lists, Some(z))
    {
      hide Placed, ZonesListed, OneIdle, IdleBut;
      ListCount(zoneSize, zones, live, lists, cached);
      GiveBack(zoneSize, zones, live, lists, cached, z, i);
      var zn := zones[z];
      if OneIdle(live, lists) {
        IdlePut(live, lists, zn.index, z, if zn.nfree == 0 then [z] + lists[zn.index] else lists[zn.index], i);
      }
      zones := zones[z := Returned(zn, ptr)];
      live := live[z := live[z] - {i}];
      lists := lists[zn.index := if zn.nfree == 0 then [z] + lists[zn.index] else lists[zn.index]];
      assert zones.Keys == old(zones).Keys;
    }

    method RetireZone(z: nat, zi: nat)
      requires Valid() && z in zones && z !in cached && zones[z].index == zi && zi < |lists|
      requires zones[z].nfree == zones[z].nmax
      modifies this`usage, this`owner, this`zones, this`live, this`lists, this`cached, this`cachedCount, pages
      ensures Valid() && larges == old(larges) && NothingLost(old(zones), old(live), zones, live)
      ensures IdleBut(old(live), old(lists), Some(z)) ==> OneIdle(live, lists)
    {
      hide Placed, ZonesListed, Remove, OneIdle, IdleBut;
      ListCount(zoneSize, zones, live, lists, cached);
      ghost var live0, lists0 := live, lists;
      ListedOnce(zoneSize, zones, live, lists, cached, z);
      Retire(zoneSize, zones, live, lists, cached, z);
      lists := lists[zi := Remove(lists[zi], z)];
      cached := [z] + cached;
      cachedCount := cachedCount + 1;
      if cachedCount > 2 {
        ReleaseZone();
      }
      if IdleBut(live0, lists0, Some(z)) {
        IdleRetire(live0, lists0, zi, z, live);
      }
    }

    /** Gives the pages of the first zone in reserve back. */
    method ReleaseZone()
      requires IsZoneSize(zoneSize) && zoneSize == zonePages * PAGE && cachedCount == |cached| == 3
      requires |usage| == pageCount
      requires |data| == pageCount * PAGE && TableKept(owner, table, tablePages)
      requires Placed(pages.runs, owner, usage, zones.Keys, zonePages, larges)
      requires ZonesListed(zoneSize, zones, live, lists, cached)
      modifies this`usage, this`owner, this`zones, this`live, this`cached, this`cachedCount, pages
      ensures Valid() && zones == old(zones) - {old(cached)[0]} && live == old(live) - {old(cached)[0]}
      ensures old(cached)[0] in old(live) && old(live)[old(cached)[0]] == {}
    {
      hide Placed;
      hide ZonesListed;
      hide Adds;
      hide Apart;
      ReserveKnown(zoneSize, zones, live, lists, cached);
      RunsKnown(pages.runs, owner, usage, zones.Keys, zonePages, larges);
      UnplaceZone(pages.runs, owner, usage, zones.Keys, zonePages, larges, cached[0]);
      Release(zoneSize, zones, live, lists, cached);
      var z := cached[0];
      cached := cached[1..];
      cachedCount := cachedCount - 1;
      UnmarkZone(z);
      pages.Free(z, zonePages);
      TableStays(owner, z, zonePages, Nobody, table, tablePages);
      owner := Owned(owner, z, zonePages, Nobody);
      zones, live := zones - {z}, live - {z};
      assert zones.Keys == old(zones).Keys - {z};
    }

    /** A client stores a byte. */
    method Write(p: nat, x: int)
      requires Valid() && p < |data|
      modifies this`data
      ensures Valid() && data == old(data)[p := x]
    {
      data := data[p := x];
    }

    method UnmarkZone(z: nat)
      requires z + zonePages <= |usage|
      modifies this`usage
      ensures usage == FreeEntries(old(usage), z, zonePages)
    {
      for off := 0 to zonePages
        invariant |usage| == |old(usage)|
        invariant forall q :: 0 <= q < |usage| ==>
          usage[q] == if z <= q < z + off then Usage(FreePage, 0) else old(usage)[q]
      {
        usage := usage[z + off := Usage(FreePage, 0)];
      }
    }
  }

  lemma ListCount(zoneSize: nat, zones: map<nat, Zone>, live: map<nat, set<nat>>, lists: seq<seq<nat>>,
                  cached: seq<nat>)
    requires ZonesListed(zoneSize, zones, live, lists, cached)
    ensures |lists| == NZONES && live.Keys == zones.Keys
  {
  }

  lemma RunsKnown(runs: seq<Run>, owner: seq<Owner>, usage: seq<Usage>, zs: set<nat>, zp: nat, larges: map<nat, nat>)
    requires Placed(runs, owner, usage, zs, zp, larges)
    ensures RunsOk(runs) && |usage| == |owner| && zp > 0
  {
  }

  lemma ReuseKnown(zoneSize: nat, zones: map<nat, Zone>, live: map<nat, set<nat>>, lists: seq<seq<nat>>,
                   cached: seq<nat>, zn: Zone)
    requires ZonesListed(zoneSize, zones, live, lists, cached) && cached != []
    ensures var z := cached[0];
      && z in zones && z in live && zones[z := zn].Keys == zones.Keys
      && LivePlus(live, live[z := {0}], z, 0) && SameChunks(zones, live, zones[z := zn], live[z := {0}])
  {
    hide Active;
    var z := cached[0];
    assert z in cached;
  }

  /** A zone on new pages. */
  lemma AddZone(zoneSize: nat, zones: map<nat, Zone>, live: map<nat, set<nat>>, lists: seq<seq<nat>>, zn: Zone, z: nat)
    requires ZonesListed(zoneSize, zones, live, lists, []) && z !in zones && zn.index < NZONES && lists[zn.index] == []
    requires ZoneOk(zoneSize, z, zn, {0}) && zn.nfree > 0
    ensures ZonesListed(zoneSize, zones[z := zn], live[z := {0}], lists[zn.index := [z]], [])
    ensures zones[z := zn].Keys == zones.Keys + {z}
    ensures LivePlus(live, live[z := {0}], z, 0) && SameChunks(zones, live, zones[z := zn], live[z := {0}])
  {
    hide ZoneOk;
    OneZone(zoneSize, zones, live, lists, [], z, zn, {0}, [z]);
  }

  /** The heap once the table of pages has its place. */
  lemma TableOk(npages: nat, table: nat, first: Option<nat>, runs: seq<Run>, owner: seq<Owner>)
    requires npages > 0 && RunsOk(runs)
    requires first == None ==> runs == [Run(0, npages)] && owner == seq(npages, _ => Nobody)
    requires first != None ==> Takes([Run(0, npages)], Run(first.value, table), runs)
    requires first != None ==> owner == Owned(seq(npages, _ => Nobody), first.value, table, OfTable)
    ensures PagesOk(runs, owner) && |owner| == npages
    ensures forall q: nat :: OwnerAt(owner, q) == Nobody || OwnerAt(owner, q) == OfTable
    ensures first != None ==> TableKept(owner, first.value, table)
  {
    hide Owned;
    var all, none := [Run(0, npages)], seq(npages, _ => Nobody);
    forall p: nat ensures IsFree(all, p) <==> OwnerAt(none, p) == Nobody {
      assert Inside(all[0], p) <==> p < npages;
    }
    if first != None {
      TakenPages(all, none, first.value, table, runs, OfTable);
    }
  }

  lemma ReserveKnown(zoneSize: nat, zones: map<nat, Zone>, live: map<nat, set<nat>>, lists: seq<seq<nat>>,
                     cached: seq<nat>)
    requires ZonesListed(zoneSize, zones, live, lists, cached) && cached != []
    ensures cached[0] in zones && cached[0] in live && live[cached[0]] == {}
  {
    hide Active;
    assert cached[0] in cached;
  }

  /** The table entry for the page of a pointer: where the zone is, or how many pages there are. */
  lemma EntryOf(runs: seq<Run>, owner: seq<Owner>, usage: seq<Usage>, zones: map<nat, Zone>, zp: nat, zoneSize: nat,
                larges: map<nat, nat>,
                live: map<nat, set<nat>>, lists: seq<seq<nat>>, cached: seq<nat>, ref: Ref, ptr: nat)
    requires Placed(runs, owner, usage, zones.Keys, zp, larges) && ZonesListed(zoneSize, zones, live, lists, cached)
    requires zoneSize == zp * PAGE
    requires Refers(View(zones, live, larges), ref, ptr)
    ensures ptr / PAGE < |usage|
    ensures ref.Chunk? ==> usage[ptr / PAGE].kind == SmallPage && usage[ptr / PAGE].size <= ptr / PAGE
    ensures ref.Chunk? ==> ptr / PAGE - usage[ptr / PAGE].size == ref.z
    ensures ref.Large? ==> usage[ptr / PAGE].kind == LargePage && ptr / PAGE == ref.first
  {
    hide ZonesListed;
    hide PagesOk;
    var q := ptr / PAGE;
    match ref {
      case Chunk(z, i) =>
        LeadsToZone(zoneSize, zp, zones, live, lists, cached, owner, usage, z, i, q);
      case Large(f) =>
        assert UsageAt(usage, f) == Usage(LargePage, larges[f]);
    }
  }

  // ---- what holds in every reachable state ----------------------------------------------------------

  /** The counts of a zone in use, its place in the lists, and the limit on the reserve. */
  lemma ZoneCounts(s: SlabHeap, z: nat)
    requires s.Valid() && z in s.zones && z !in s.cached
    ensures s.zones[z].uindex < s.zones[z].nmax && s.zones[z].nmax >= 2 && s.zones[z].index < |s.lists|
    ensures s.zones[z].nfree == (s.zones[z].nmax - 1 - s.zones[z].uindex) + |s.zones[z].freechunk|
    ensures z in s.live && |s.live[z]| == s.zones[z].nmax - s.zones[z].nfree
    ensures z in s.lists[s.zones[z].index] <==> s.zones[z].nfree > 0
    ensures s.cachedCount <= 2
  {
    hide Placed;
    assert Active(s.zoneSize, z, s.zones[z], s.live[z], s.lists);
  }

  /** A live chunk and a live large block never share a page. */
  lemma LargeApart(s: SlabHeap, z: nat, i: nat, f: nat)
    requires s.Valid() && LiveAt(s.live, z, i) && f in s.larges
    ensures z in s.zones
    ensures Addr(s.zones[z], i) + s.zones[z].chunksize <= f * PAGE || (f + s.larges[f]) * PAGE <= Addr(s.zones[z], i)
  {
    hide ZonesListed;
    hide PagesOk;
    LiveInside(s.zoneSize, s.zones, s.live, s.lists, s.cached, z, i);
    PagesApart(s.zones.Keys, s.zonePages, s.larges, s.owner, s.usage, z, f);
  }

  lemma PagesApart(zs: set<nat>, zp: nat, larges: map<nat, nat>, owner: seq<Owner>, usage: seq<Usage>, z: nat, f: nat)
    requires zp > 0 && ZonesPlaced(zs, zp, owner, usage) && LargePlaced(larges, owner, usage) && z in zs && f in larges
    ensures z + zp <= f || f + larges[f] <= z
  {
    assert OwnerAt(owner, z) == OfZone(z) && OwnerAt(owner, f) == OfLarge(f);
  }

  // ---- what is live has its own bytes ---------------------------------------------------------------

  lemma HeapSound(s: SlabHeap)
    requires s.Valid()
    ensures Sound(s.Live(), s.pageCount * PAGE)
  {
    hide Placed, ZonesListed, LiveAt, TableKept;
    var v := s.Live();
    forall a, b, p: nat, q: nat | Refers(v, a, p) && Refers(v, b, q) && a != b
      ensures p + Room(v, a) <= q || q + Room(v, b) <= p
    {
      TwoApart(s, a, p, b, q);
    }
    forall a, p: nat | Refers(v, a, p) ensures 8 <= Room(v, a) && p + Room(v, a) <= s.pageCount * PAGE {
      InHeap(s, a, p);
    }
  }

  lemma TwoApart(s: SlabHeap, a: Ref, p: nat, b: Ref, q: nat)
    requires s.Valid() && Refers(s.Live(), a, p) && Refers(s.Live(), b, q) && a != b
    ensures p + Room(s.Live(), a) <= q || q + Room(s.Live(), b) <= p
  {
    hide ZonesListed, Addr, PagesOk, TableKept;
    match (a, b) {
      case (Chunk(z, i), Chunk(z', i')) =>
        LiveDisjoint(s.zoneSize, s.zonePages, s.zones, s.live, s.lists, s.cached, s.owner, s.usage, z, i, z', i');
      case (Chunk(z, i), Large(f)) => LargeApart(s, z, i, f);
      case (Large(f), Chunk(z, i)) => LargeApart(s, z, i, f);
      case (Large(f), Large(g)) =>
        assert OwnerAt(s.owner, f) == OfLarge(f) && OwnerAt(s.owner, g) == OfLarge(g);
    }
  }

  lemma InHeap(s: SlabHeap, a: Ref, p: nat)
    requires s.Valid() && Refers(s.Live(), a, p)
    ensures 8 <= Room(s.Live(), a) && p + Room(s.Live(), a) <= s.pageCount * PAGE
  {
    hide ZonesListed, Addr, PagesOk, TableKept;
    match a {
      case Chunk(z, i) =>
        LiveInside(s.zoneSize, s.zones, s.live, s.lists, s.cached, z, i);
        assert s.zones[z].chunksize >= 8 by { SmallestChunk(s.zoneSize, z, s.zones[z]); }
        assert OwnerAt(s.owner, z + s.zonePages - 1) == OfZone(z);
      case Large(f) =>
        assert OwnerAt(s.owner, f + s.larges[f] - 1) == OfLarge(f);
    }
  }

  lemma SmallestChunk(zoneSize: nat, z: nat, zn: Zone)
    requires LaidOut(zoneSize, z, zn)
    ensures zn.chunksize >= 8
  {
    hide ChunkOffset, ChunkCount;
  }

  /** No byte of anything live belongs to a record. */
  lemma RecordsElsewhere(s: SlabHeap)
    requires s.Valid()
    ensures Kept(s.Live(), None, s.data, Rewritten(s.data, s.pages.runs, s.zones.Keys, s.table, s.tablePages))
  {
    hide Placed, ZonesListed, LiveAt, TableKept, Refers, Room, Record;
    var v := s.Live();
    forall a, p: nat, x | Refers(v, a, p) && p <= x < p + Room(v, a) && x < |s.data|
      ensures Rewritten(s.data, s.pages.runs, s.zones.Keys, s.table, s.tablePages)[x] == s.data[x]
    {
      NotARecord(s, a, p, x);
    }
  }

  lemma NotARecord(s: SlabHeap, a: Ref, p: nat, x: nat)
    requires s.Valid() && Refers(s.Live(), a, p) && p <= x < p + Room(s.Live(), a) && x < |s.data|
    ensures !Record(s.pages.runs, s.zones.Keys, s.table, s.tablePages, x)
  {
    hide Placed, ZonesListed, LiveAt, TableKept, Addr, Room, Refers;
    var o := OwnerOf(s, a, p, x);
    NotInRun(s, x);
    NotInTable(s, x);
    NotInHeader(s, a, p, x, o);
  }

  /** The page of a byte that is live belongs to its zone or block. */
  lemma OwnerOf(s: SlabHeap, a: Ref, p: nat, x: nat) returns (o: Owner)
    requires s.Valid() && Refers(s.Live(), a, p) && p <= x < p + Room(s.Live(), a)
    ensures o == OwnerAt(s.owner, x / PAGE) && o == match a case Chunk(z, i) => OfZone(z) case Large(f) => OfLarge(f)
    ensures a.Chunk? ==> x >= a.z * PAGE + ZONE_HEADER
  {
    hide ZonesListed, Addr, PagesOk, TableKept;
    o := OwnerAt(s.owner, x / PAGE);
    match a {
      case Chunk(z, i) => LiveInside(s.zoneSize, s.zones, s.live, s.lists, s.cached, z, i);
      case Large(f) =>
    }
  }

  lemma NotInHeader(s: SlabHeap, a: Ref, p: nat, x: nat, o: Owner)
    requires s.Valid() && o == OwnerAt(s.owner, x / PAGE)
    requires o == match a case Chunk(z, i) => OfZone(z) case Large(f) => OfLarge(f)
    requires a.Chunk? ==> x >= a.z * PAGE + ZONE_HEADER
    ensures !(x / PAGE in s.zones.Keys && x % PAGE < ZONE_HEADER)
  {
    hide ZonesListed, PagesOk, TableKept;
    if x / PAGE in s.zones.Keys {
      assert OwnerAt(s.owner, x / PAGE) == OfZone(x / PAGE);
    }
  }

  lemma NotInRun(s: SlabHeap, x: nat)
    requires s.Valid() && OwnerAt(s.owner, x / PAGE) != Nobody
    ensures forall i :: 0 <= i < |s.pages.runs| ==>
      !(s.pages.runs[i].start * PAGE <= x < s.pages.runs[i].start * PAGE + RUN_HEAD)
  {
    hide ZonesListed, ZonesPlaced, LargePlaced, TableKept;
    assert !IsFree(s.pages.runs, x / PAGE);
    forall i | 0 <= i < |s.pages.runs|
      ensures !(s.pages.runs[i].start * PAGE <= x < s.pages.runs[i].start * PAGE + RUN_HEAD)
    {
      HeadPage(s.pages.runs[i], x);
    }
  }

  lemma HeadPage(r: Run, x: nat)
    requires !Inside(r, x / PAGE) && r.n > 0
    ensures !(r.start * PAGE <= x < r.start * PAGE + RUN_HEAD)
  {
  }

  lemma TablePage(table: nat, n: nat, x: nat)
    ensures table * PAGE <= x < (table + n) * PAGE ==> table <= x / PAGE < table + n
  {
  }

  lemma NotInTable(s: SlabHeap, x: nat)
    requires s.Valid() && OwnerAt(s.owner, x / PAGE) != OfTable
    ensures !(s.table * PAGE <= x < (s.table + s.tablePages) * PAGE)
  {
    hide ZonesListed, Placed;
    TablePage(s.table, s.tablePages, x);
  }

  /** The link stored in a freed chunk reaches nothing that is live. */
  lemma LinkElsewhere(v: View, w: View, end: nat, a: Ref, p: nat, data: seq<int>)
    requires Sound(v, end) && Loses(v, w, a, p)
    ensures Kept(w, None, data, Stamp(data, p, LINK))
  {
    hide Refers, Room;
  }

  lemma KeptSame(v: View, data: seq<int>)
    ensures Kept(v, None, data, data)
  {
  }

  /** A zone without live chunks that is given up takes nothing along. */
  lemma SameLive(v: View, w: View, u: View, a: Ref, p: nat, d: seq<int>, d': seq<int>)
    requires Loses(v, w, a, p) && NothingLost(w.zones, w.live, u.zones, u.live) && u.larges == w.larges
    requires Kept(w, None, d, d')
    ensures Loses(v, u, a, p) && Kept(u, None, d, d')
  {
    hide Addr;
    forall b, q: nat ensures Refers(w, b, q) <==> Refers(u, b, q) {
      if b.Chunk? { assert LiveAt(w.live, b.z, b.i) <==> LiveAt(u.live, b.z, b.i); }
    }
    forall b, q: nat | Refers(u, b, q) ensures Room(w, b) == Room(u, b) {
      if b.Chunk? { assert LiveAt(u.live, b.z, b.i); }
    }
    SameKept(w, u, d, d');
  }

  lemma SameKept(w: View, u: View, d: seq<int>, d': seq<int>)
    requires forall b, q: nat :: Refers(u, b, q) ==> Refers(w, b, q) && Room(w, b) == Room(u, b)
    requires Kept(w, None, d, d')
    ensures Kept(u, None, d, d')
  {
    hide Refers, Room;
  }

  lemma ChunkGained(v: View, w: View, z: nat, i: nat)
    requires LivePlus(v.live, w.live, z, i) && SameChunks(v.zones, v.live, w.zones, w.live)
    requires w.larges == v.larges && z in w.zones
    ensures Gains(v, w, Chunk(z, i), Addr(w.zones[z], i)) && Room(w, Chunk(z, i)) == w.zones[z].chunksize
  {
    hide Addr;
    assert LiveAt(w.live, z, i);
    forall b, q: nat | Refers(v, b, q) ensures b != Chunk(z, i) && Refers(w, b, q) && Room(w, b) == Room(v, b) {
      if b.Chunk? { assert LiveAt(v.live, b.z, b.i) && LiveAt(w.live, b.z, b.i); }
    }
    forall b, q: nat | Refers(w, b, q) && b != Chunk(z, i) ensures Refers(v, b, q) {
      if b.Chunk? { assert LiveAt(w.live, b.z, b.i) && LiveAt(v.live, b.z, b.i); }
    }
  }

  lemma ChunkLost(v: View, w: View, z: nat, i: nat)
    requires LiveMinus(v.live, w.live, z, i) && SameChunks(v.zones, v.live, w.zones, w.live)
    requires w.larges == v.larges && z in v.zones
    ensures Loses(v, w, Chunk(z, i), Addr(v.zones[z], i))
  {
    hide Addr;
    assert LiveAt(v.live, z, i);
    forall b, q: nat | Refers(v, b, q) && b != Chunk(z, i) ensures Refers(w, b, q) && Room(w, b) == Room(v, b) {
      if b.Chunk? { assert LiveAt(v.live, b.z, b.i) && LiveAt(w.live, b.z, b.i); }
    }
    forall b, q: nat | Refers(w, b, q) ensures b != Chunk(z, i) && Refers(v, b, q) {
      if b.Chunk? { assert LiveAt(w.live, b.z, b.i) && LiveAt(v.live, b.z, b.i); }
    }
  }

  lemma LargeGained(v: View, w: View, f: nat, n: nat)
    requires f !in v.larges && w == v.(larges := v.larges[f := PageCount(n)])
    ensures Gains(v, w, Large(f), f * PAGE) && n <= Room(w, Large(f))
  {
    hide Addr, LiveAt;
  }

  lemma LargeLost(v: View, w: View, f: nat)
    requires f in v.larges && w == v.(larges := v.larges - {f})
    ensures Loses(v, w, Large(f), f * PAGE)
  {
    hide Addr, LiveAt;
  }

  // ---- reallocation -----------------------------------------------------------------------------------

  lemma AskedEnough(size: nat)
    requires size > 0
    ensures size <= Asked(size)
  {
  }

  lemma LargeSize(runs: seq<Run>, owner: seq<Owner>, usage: seq<Usage>, zs: set<nat>, zp: nat, larges: map<nat, nat>,
                  f: nat)
    requires Placed(runs, owner, usage, zs, zp, larges) && f in larges && f < |usage|
    ensures usage[f].size == larges[f]
  {
    hide PagesOk, ZonesPlaced;
    assert UsageAt(usage, f) == Usage(LargePage, larges[f]);
  }

  lemma Unmoved(v: View, data: seq<int>, end: nat, a: Ref, p: nat, n: nat)
    requires Sound(v, end) && end <= |data| && Refers(v, a, p) && n <= Room(v, a)
    ensures Resized(v, data, a, p, n, v, data, a, p)
  {
    hide Refers, Room;
  }

  /** The old block is still there after the allocation, and both lie in the heap. */
  lemma MoveFits(v: View, w: View, end: nat, a: Ref, p: nat, b: Ref, q: nat)
    requires Gains(v, w, b, q) && Sound(w, end) && Refers(v, a, p)
    ensures Refers(w, a, p) && Refers(w, b, q) && Room(w, a) == Room(v, a) && a != b && p + Room(v, a) <= end
    ensures q + Room(w, b) <= end
  {
    hide Refers, Room;
  }

  lemma MoveDone(v: View, w: View, u: View, end: nat, a: Ref, p: nat, b: Ref, q: nat, m: nat, n: nat,
                 d: seq<int>, d1: seq<int>, d2: seq<int>, d3: seq<int>)
    requires Gains(v, w, b, q) && Sound(w, end) && Refers(v, a, p) && Loses(w, u, a, p)
    requires |d| == end && m <= Room(v, a) && m <= Room(w, b) && n <= Room(w, b)
    requires m == Room(v, a) || n <= m
    requires Kept(w, None, d, d1) && p + m <= |d1| && d2 == Copied(d1, p, q, m) && Kept(u, None, d2, d3)
    ensures Resized(v, d, a, p, n, u, d3, b, q)
  {
    hide Refers, Room, Gains, Loses, Sound;
    MoveFits(v, w, end, a, p, b, q);
    GainThenLose(v, w, u, a, p, b, q);
    CopyKeeps(w, u, end, a, p, b, q, m, d, d1, d2, d3);
    var k := if Room(v, a) < n then Room(v, a) else n;
    forall x | q <= x < q + k ensures d3[x] == d[x - q + p] {
      CopiedByte(w, u, end, a, p, b, q, m, d, d1, d2, d3, x);
    }
    assert d3[q..q + k] == d[p..p + k];
  }

  lemma GainThenLose(v: View, w: View, u: View, a: Ref, p: nat, b: Ref, q: nat)
    requires Gains(v, w, b, q) && Loses(w, u, a, p) && Refers(v, a, p)
    ensures Replaces(v, u, a, p, b, q) && Room(u, b) == Room(w, b)
  {
    hide Refers, Room;
  }

  lemma CopiedByte(w: View, u: View, end: nat, a: Ref, p: nat, b: Ref, q: nat, m: nat,
                   d: seq<int>, d1: seq<int>, d2: seq<int>, d3: seq<int>, x: nat)
    requires Refers(w, a, p) && Refers(u, b, q) && Room(u, b) == Room(w, b) && m <= Room(w, a) && m <= Room(w, b)
    requires |d| == end && p + Room(w, a) <= end && q + Room(w, b) <= end
    requires Kept(w, None, d, d1) && p + m <= |d1| && d2 == Copied(d1, p, q, m) && Kept(u, None, d2, d3)
    requires q <= x < q + m
    ensures x < |d3| && d3[x] == d[x - q + p]
  {
    hide Refers, Room;
    var y: nat := x - q + p;
    assert d1[y] == d[y];
    assert d2[x] == d1[y];
    assert d3[x] == d2[x];
  }

  lemma CopyKeeps(w: View, u: View, end: nat, a: Ref, p: nat, b: Ref, q: nat, m: nat,
                  d: seq<int>, d1: seq<int>, d2: seq<int>, d3: seq<int>)
    requires Sound(w, end) && Loses(w, u, a, p) && Refers(w, b, q) && m <= Room(w, b) && |d| == end
    requires Kept(w, None, d, d1) && p + m <= |d1| && d2 == Copied(d1, p, q, m) && Kept(u, None, d2, d3)
    ensures Kept(u, Some(b), d, d3)
  {
    hide Refers, Room;
    forall c, y: nat, x | Refers(u, c, y) && c != b && y <= x < y + Room(u, c) && x < |d| ensures d3[x] == d[x] {
      assert Refers(w, c, y) && Room(w, c) == Room(u, c);
      assert d3[x] == d2[x];
      assert d2[x] == d1[x];
      assert d1[x] == d[x];
    }
  }
}
