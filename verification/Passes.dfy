/** Passes of `discoverDevices`: what the lookup by serial finds, what a pass deletes, and when every
    discovered speaker is still stored at its end. */
module DiscoveryPasses {
  import opened Records
  import opened DeviceRegistry

  function PlaceFor(d: Found): Place {
    Place(DEFAULT_ACCOUNT, NameFor(d))
  }

  // ---------- the lookup ----------

  lemma {:induction false} LookupFinds(listing: seq<DeviceInfo>, serial: string)
    ensures Lookup(listing, serial) != "" ==>
              exists d :: d in listing && Carries(d, serial) && KeyOf(d) == Lookup(listing, serial)
  {
    if listing != [] && !Carries(listing[0], serial) {
      LookupFinds(listing[1..], serial);
    }
  }

  // The records as they are visited: the lookup finds the first one that carries the serial among
  // those that are the first of their key.

  ghost predicate FirstAt(ds: seq<DeviceInfo>, k: nat) {
    k < |ds| && forall m :: 0 <= m < k ==> KeyOf(ds[m]) != KeyOf(ds[k])
  }

  ghost predicate CarrierAt(ds: seq<DeviceInfo>, serial: string, k: nat) {
    FirstAt(ds, k) && Carries(ds[k], serial)
  }

  ghost predicate FoundAt(ds: seq<DeviceInfo>, serial: string, k: nat) {
    CarrierAt(ds, serial, k) && forall m :: 0 <= m < k ==> !CarrierAt(ds, serial, m)
  }

  lemma ListedIsFirst(ds: seq<DeviceInfo>, d: DeviceInfo)
    requires d in Dedup(ds)
    ensures exists k: nat :: FirstAt(ds, k) && ds[k] == d
  {
    DedupMeans(ds);
    assert FirstAt(ds, FirstWith(ds, KeyOf(d)));
  }

  lemma {:induction false} LookupAppend(listing: seq<DeviceInfo>, more: seq<DeviceInfo>, serial: string)
    ensures (exists d :: d in listing && Carries(d, serial)) ==> Lookup(listing + more, serial) == Lookup(listing, serial)
    ensures (forall d :: d in listing ==> !Carries(d, serial)) ==> Lookup(listing + more, serial) == Lookup(more, serial)
  {
    if listing == [] {
      assert listing + more == more;
    } else {
      LookupAppend(listing[1..], more, serial);
      assert (listing + more)[1..] == listing[1..] + more;
      assert listing == [listing[0]] + listing[1..];
    }
  }

  lemma FoundInPrefix(ds: seq<DeviceInfo>, serial: string, k: nat, n: nat)
    requires FoundAt(ds, serial, k) && k < n <= |ds|
    ensures FoundAt(ds[..n], serial, k) && ds[..n][k] == ds[k]
  {
    forall m | 0 <= m < k ensures !CarrierAt(ds[..n], serial, m) {
      assert !CarrierAt(ds, serial, m);
    }
  }

  lemma FirstInPrefix(ds: seq<DeviceInfo>, k: nat, m: nat)
    requires k <= |ds| && FirstAt(ds[..k], m)
    ensures m < k && FirstAt(ds, m) && ds[m] == ds[..k][m]
  {
  }

  lemma NotListedBefore(ds: seq<DeviceInfo>, serial: string, k: nat, e: DeviceInfo)
    requires FoundAt(ds, serial, k) && e in Dedup(ds[..k])
    ensures !Carries(e, serial)
  {
    ListedIsFirst(ds[..k], e);
    var m: nat :| FirstAt(ds[..k], m) && ds[..k][m] == e;
    FirstInPrefix(ds, k, m);
    assert !CarrierAt(ds, serial, m);
  }

  lemma KeyIsNew(ds: seq<DeviceInfo>, k: nat)
    requires FirstAt(ds, k)
    ensures KeyOf(ds[k]) !in Keys(ds[..k])
  {
  }

  lemma {:induction false} LookupOf(ds: seq<DeviceInfo>, serial: string, k: nat)
    requires FoundAt(ds, serial, k)
    ensures ds[k] in Dedup(ds) && Lookup(Dedup(ds), serial) == KeyOf(ds[k])
    decreases |ds|
  {
    var n := |ds| - 1;
    assert ds == ds[..n] + [ds[n]];
    DedupStep(ds[..n], ds[n]);
    if k < n {
      FoundInPrefix(ds, serial, k, n);
      LookupOf(ds[..n], serial, k);
      LookupAppend(Dedup(ds[..n]), if KeyOf(ds[n]) in Keys(ds[..n]) then [] else [ds[n]], serial);
    } else {
      KeyIsNew(ds, k);
      forall e | e in Dedup(ds[..n]) ensures !Carries(e, serial) {
        NotListedBefore(ds, serial, k, e);
      }
      LookupAppend(Dedup(ds[..n]), [ds[n]], serial);
    }
  }

  lemma {:induction false} LeastCarrier(ds: seq<DeviceInfo>, serial: string, k: nat)
    requires CarrierAt(ds, serial, k)
    ensures exists m: nat :: FoundAt(ds, serial, m)
  {
    if m: nat :| m < k && CarrierAt(ds, serial, m) {
      LeastCarrier(ds, serial, m);
    } else {
      assert FoundAt(ds, serial, k);
    }
  }

  lemma FoundSomewhere(ds: seq<DeviceInfo>, serial: string) returns (k: nat)
    requires Lookup(Dedup(ds), serial) != ""
    ensures FoundAt(ds, serial, k) && KeyOf(ds[k]) == Lookup(Dedup(ds), serial)
  {
    LookupFinds(Dedup(ds), serial);
    var d :| d in Dedup(ds) && Carries(d, serial);
    ListedIsFirst(ds, d);
    var m: nat :| FirstAt(ds, m) && ds[m] == d;
    LeastCarrier(ds, serial, m);
    k :| FoundAt(ds, serial, k);
    LookupOf(ds, serial, k);
  }

  lemma VisitedAt(r: Registry, order: seq<Place>, others: seq<DeviceInfo>, p: Place) returns (k: nat)
    requires IsOrder(r, order) && p in r
    ensures k < |order| && order[k] == p && Visited(r, order, others)[k] == r[p]
  {
    k :| 0 <= k < |order| && order[k] == p;
  }

  /** A record carries the serial under the name: a stored one, or one of the alternative directory
      whose key no stored record has. */
  ghost predicate CarriedUnder(r: Registry, others: seq<DeviceInfo>, serial: string, name: string) {
    || (exists q :: q in r && Carries(r[q], serial) && KeyOf(r[q]) == name)
    || ((forall q :: q in r ==> KeyOf(r[q]) != name) && exists d :: d in others && Carries(d, serial) && KeyOf(d) == name)
  }

  /** What the lookup returns is the key of such a record. */
  lemma LookupIsCarried(r: Registry, order: seq<Place>, others: seq<DeviceInfo>, serial: string)
    requires IsOrder(r, order) && Lookup(Listing(r, order, others), serial) != ""
    ensures CarriedUnder(r, others, serial, Lookup(Listing(r, order, others), serial))
  {
    var ds := Visited(r, order, others);
    var k := FoundSomewhere(ds, serial);
    if k < |order| {
      assert order[k] in r && ds[k] == r[order[k]];
    } else {
      assert ds[k] == others[k - |order|];
      KeyNotStored(r, order, others, k);
    }
  }

  lemma KeyNotStored(r: Registry, order: seq<Place>, others: seq<DeviceInfo>, k: nat)
    requires IsOrder(r, order) && |order| <= k && FirstAt(Visited(r, order, others), k)
    ensures forall q :: q in r ==> KeyOf(r[q]) != KeyOf(Visited(r, order, others)[k])
  {
    forall q | q in r ensures KeyOf(r[q]) != KeyOf(Visited(r, order, others)[k]) {
      var m := VisitedAt(r, order, others, q);
    }
  }

  // ---------- what a pass deletes, on any registry ----------

  /** What the first n turns deleted was in the default account, under a name that was, when it was
      looked up, the key of a record carrying the serial of the speaker whose turn it was. */
  ghost predicate DeletedByKey(states: seq<Registry>, found: seq<Found>, others: seq<DeviceInfo>, n: nat) {
    n < |states| && n <= |found| && forall p :: p in states[0] && p !in states[n] ==>
      p.account == DEFAULT_ACCOUNT
      && exists i :: 0 <= i < n && p in states[i] && CarriedUnder(states[i], others, found[i].serial, p.dir)
  }

  lemma TurnDeletes(r: Registry, d: Found, order: seq<Place>, others: seq<DeviceInfo>, p: Place)
    requires IsOrder(r, order) && p in r && p !in Discovered(r, d, order, others)
    ensures p.account == DEFAULT_ACCOUNT && CarriedUnder(r, others, d.serial, p.dir)
  {
    LookupIsCarried(r, order, others, d.serial);
  }

  /** Every pass deletes only such directories, whatever the registry and whichever writes fail. */
  lemma {:induction false} PassDeletes(states: seq<Registry>, found: seq<Found>, orders: seq<seq<Place>>, others: seq<DeviceInfo>, n: nat)
    requires IsPass(states, found, orders, others) && n <= |found|
    ensures DeletedByKey(states, found, others, n)
  {
    if n > 0 {
      PassDeletes(states, found, orders, others, n - 1);
      forall p | p in states[0] && p !in states[n]
        ensures p.account == DEFAULT_ACCOUNT
        ensures exists i :: 0 <= i < n && p in states[i] && CarriedUnder(states[i], others, found[i].serial, p.dir)
      {
        if p in states[n - 1] {
          TurnDeletes(states[n - 1], found[n - 1], orders[n - 1], others, p);
        }
      }
    }
  }

  /** Directories of other names are as they were. */
  ghost predicate OthersUntouched(before: Registry, r: Registry, found: seq<Found>, n: nat) {
    n <= |found| && forall p :: p in r && (forall i :: 0 <= i < n ==> p != PlaceFor(found[i])) ==>
      p in before && r[p] == before[p]
  }

  lemma TurnTouches(r: Registry, d: Found, order: seq<Place>, others: seq<DeviceInfo>, p: Place)
    requires IsOrder(r, order) && p != PlaceFor(d) && p in Discovered(r, d, order, others)
    ensures p in r && Discovered(r, d, order, others)[p] == r[p]
  {
  }

  lemma {:induction false} PassTouches(states: seq<Registry>, found: seq<Found>, orders: seq<seq<Place>>, others: seq<DeviceInfo>, n: nat)
    requires IsPass(states, found, orders, others) && n <= |found|
    ensures OthersUntouched(states[0], states[n], found, n)
  {
    if n > 0 {
      PassTouches(states, found, orders, others, n - 1);
      forall p | p in states[n] && (forall i :: 0 <= i < n ==> p != PlaceFor(found[i]))
        ensures p in states[0] && states[n][p] == states[0][p]
      {
        TurnTouches(states[n - 1], found[n - 1], orders[n - 1], others, p);
      }
    }
  }

  // ---------- when every speaker is stored ----------

  /** Every save succeeds and no two speakers share a name. */
  predicate Resolved(found: seq<Found>) {
    && (forall i :: 0 <= i < |found| ==> found[i].diskOk && NameFor(found[i]) != "")
    && (forall i, j :: 0 <= i < j < |found| ==> NameFor(found[i]) != NameFor(found[j]))
  }

  predicate StoredAs(r: Registry, d: Found) {
    PlaceFor(d) in r && r[PlaceFor(d)] == NormalInfo(InfoFor(d))
  }

  /** The first n discovered speakers are stored as discovered. */
  ghost predicate AllStored(r: Registry, found: seq<Found>, n: nat) {
    n <= |found| && forall i :: 0 <= i < n ==> StoredAs(r, found[i])
  }

  /** The lookup of turn j gives the name of speaker i. */
  ghost predicate LookupHits(states: seq<Registry>, found: seq<Found>, orders: seq<seq<Place>>, others: seq<DeviceInfo>, i: nat, j: nat)
    requires IsPass(states, found, orders, others) && i < |found| && j < |found|
  {
    Lookup(Listing(states[j], orders[j], others), found[j].serial) == NameFor(found[i])
  }

  /** The lookup of turn j does not give the name of a speaker that had its turn before. */
  ghost predicate LookupClear(states: seq<Registry>, found: seq<Found>, orders: seq<seq<Place>>, others: seq<DeviceInfo>, j: nat)
    requires IsPass(states, found, orders, others) && j < |found|
  {
    forall i :: 0 <= i < j ==> !LookupHits(states, found, orders, others, i, j)
  }

  /** So it is in each of the first n turns. */
  ghost predicate NoLookupHits(states: seq<Registry>, found: seq<Found>, orders: seq<seq<Place>>, others: seq<DeviceInfo>, n: nat)
    requires IsPass(states, found, orders, others) && n <= |found|
  {
    n == 0 || (NoLookupHits(states, found, orders, others, n - 1) && LookupClear(states, found, orders, others, n - 1))
  }

  /** A speaker stored before stays through another's turn exactly when the lookup does not give its
      name. */
  lemma TurnKeeps(r: Registry, d: Found, order: seq<Place>, others: seq<DeviceInfo>, earlier: Found)
    requires IsOrder(r, order) && NameFor(earlier) != "" && NameFor(earlier) != NameFor(d)
    ensures StoredAs(Discovered(r, d, order, others), earlier) <==>
              StoredAs(r, earlier) && Lookup(Listing(r, order, others), d.serial) != NameFor(earlier)
  {
    assert Lookup(Listing(r, order, others), "") == "" by {
      LookupFinds(Listing(r, order, others), "");
    }
  }

  lemma TurnStores(r: Registry, d: Found, order: seq<Place>, others: seq<DeviceInfo>)
    requires IsOrder(r, order) && d.diskOk && NameFor(d) != ""
    ensures StoredAs(Discovered(r, d, order, others), d)
  {
  }

  lemma AllStoredStep(states: seq<Registry>, found: seq<Found>, orders: seq<seq<Place>>, others: seq<DeviceInfo>, m: nat)
    requires IsPass(states, found, orders, others) && Resolved(found) && m < |found|
    ensures AllStored(states[m + 1], found, m + 1) <==>
              AllStored(states[m], found, m) && LookupClear(states, found, orders, others, m)
  {
    var r, r' := states[m], states[m + 1];
    TurnStores(r, found[m], orders[m], others);
    assert StoredAs(r', found[m]);
    forall i | 0 <= i < m
      ensures StoredAs(r', found[i]) <==> StoredAs(r, found[i]) && !LookupHits(states, found, orders, others, i, m)
    {
      TurnKeeps(r, found[m], orders[m], others, found[i]);
    }
  }

  /** A pass, on any registry, leaves every speaker stored exactly when no turn's lookup gives the name
      of an earlier one. */
  lemma {:induction false} AllStoredIff(states: seq<Registry>, found: seq<Found>, orders: seq<seq<Place>>, others: seq<DeviceInfo>, n: nat)
    requires IsPass(states, found, orders, others) && Resolved(found) && n <= |found|
    ensures AllStored(states[n], found, n) <==> NoLookupHits(states, found, orders, others, n)
  {
    if n > 0 {
      AllStoredIff(states, found, orders, others, n - 1);
      AllStoredStep(states, found, orders, others, n - 1);
    }
  }

  /** A record of the registry the pass starts with that can cost speaker i its entry in the turn of
      speaker j: it carries j's serial under i's name, in a directory that no turn before j's rewrites. */
  predicate Threatens(r: Registry, found: seq<Found>, p: Place, i: nat, j: nat) {
    && i < j < |found| && p in r && (forall k :: 0 <= k < j ==> p != PlaceFor(found[k]))
    && Carries(r[p], found[j].serial) && KeyOf(r[p]) == NameFor(found[i])
  }

  ghost predicate Threatened(r: Registry, found: seq<Found>) {
    exists p, i, j :: Threatens(r, found, p, i, j)
  }

  /** A record written for one discovered speaker does not carry the serial of another. */
  lemma OtherSerial(a: Found, b: Found)
    requires NameFor(a) != NameFor(b)
    ensures !Carries(NormalInfo(InfoFor(a)), b.serial)
  {
  }

  /** Where a record that the pass has come to comes from. */
  ghost predicate FromPass(before: Registry, r: Registry, found: seq<Found>, n: nat, q: Place) {
    n <= |found| && q in r && if forall k :: 0 <= k < n ==> q != PlaceFor(found[k])
      then q in before && r[q] == before[q]
      else exists k :: 0 <= k < n && r[q] == NormalInfo(InfoFor(found[k]))
  }

  lemma {:induction false} Provenance(states: seq<Registry>, found: seq<Found>, orders: seq<seq<Place>>, others: seq<DeviceInfo>, n: nat, q: Place)
    requires IsPass(states, found, orders, others) && Resolved(found) && n <= |found| && q in states[n]
    ensures FromPass(states[0], states[n], found, n, q)
  {
    if n > 0 {
      if q == PlaceFor(found[n - 1]) {
        TurnStores(states[n - 1], found[n - 1], orders[n - 1], others);
      } else {
        assert q in states[n - 1];
        Provenance(states, found, orders, others, n - 1, q);
      }
    }
  }

  lemma HitIsThreat(states: seq<Registry>, found: seq<Found>, orders: seq<seq<Place>>, others: seq<DeviceInfo>, i: nat, j: nat)
    requires IsPass(states, found, orders, others) && Resolved(found) && i < j < |found|
    requires AllStored(states[j], found, j) && LookupHits(states, found, orders, others, i, j)
    ensures exists p :: Threatens(states[0], found, p, i, j) && (Sorted(orders[j]) ==> Before(p, PlaceFor(found[i])))
  {
    var r, order := states[j], orders[j];
    var ds := Visited(r, order, others);
    var k := FoundSomewhere(ds, found[j].serial);
    assert StoredAs(r, found[i]);
    var m := VisitedAt(r, order, others, PlaceFor(found[i]));
    OtherSerial(found[i], found[j]);
    assert k < m;
    var p := order[k];
    assert p in r && ds[k] == r[p];
    Provenance(states, found, orders, others, j, p);
    forall k | 0 <= k < j ensures r[p] != NormalInfo(InfoFor(found[k])) {
      OtherSerial(found[k], found[j]);
    }
    assert Threatens(states[0], found, p, i, j);
  }

  /** A check before the pass, on any registry and any accounts: without a record that threatens a
      speaker the pass leaves every one stored, in whatever orders it visits the directories. */
  lemma {:induction false} UnthreatenedAreStored(states: seq<Registry>, found: seq<Found>, orders: seq<seq<Place>>, others: seq<DeviceInfo>,
                                                 n: nat)
    requires IsPass(states, found, orders, others) && Resolved(found) && n <= |found| && !Threatened(states[0], found)
    ensures AllStored(states[n], found, n)
  {
    if n > 0 {
      var j := n - 1;
      UnthreatenedAreStored(states, found, orders, others, j);
      forall i: nat | i < j ensures !LookupHits(states, found, orders, others, i, j) {
        if LookupHits(states, found, orders, others, i, j) {
          HitIsThreat(states, found, orders, others, i, j);
        }
      }
      AllStoredStep(states, found, orders, others, j);
    }
  }

  // ---------- the order the server reads directories in ----------

  /** A record that threatens speaker i and is also visited before i's own. */
  ghost predicate ThreatenedFromBefore(r: Registry, found: seq<Found>) {
    exists p, i: nat, j: nat :: Threatens(r, found, p, i, j) && Before(p, PlaceFor(found[i]))
  }

  /** In the server's order only a record in a directory before the speaker's own can cost it its entry. */
  lemma {:induction false} SortedUnthreatenedAreStored(states: seq<Registry>, found: seq<Found>, orders: seq<seq<Place>>,
                                                       others: seq<DeviceInfo>, n: nat)
    requires IsSortedPass(states, found, orders, others) && Resolved(found) && n <= |found|
    requires !ThreatenedFromBefore(states[0], found)
    ensures AllStored(states[n], found, n)
  {
    if n > 0 {
      var j := n - 1;
      SortedUnthreatenedAreStored(states, found, orders, others, j);
      forall i: nat | i < j ensures !LookupHits(states, found, orders, others, i, j) {
        if LookupHits(states, found, orders, others, i, j) {
          HitIsThreat(states, found, orders, others, i, j);
        }
      }
      AllStoredStep(states, found, orders, others, j);
    }
  }

  lemma {:induction false} OneSortedOrder(a: seq<Place>, b: seq<Place>)
    requires Sorted(a) && Sorted(b) && forall p :: p in a <==> p in b
    ensures a == b
  {
    assert (a != [] ==> a[0] in b) && (b != [] ==> b[0] in a);
    if a != [] && b != [] {
      assert a[0] in b && b[0] in a;
      PlacesCompare(a[0], b[0]);
      PlacesCompare(a[0], a[0]);
      assert a[0] == b[0];
      assert a == [a[0]] + a[1..] && b == [b[0]] + b[1..];
      forall p ensures p in a[1..] <==> p in b[1..] {
        if p in a[1..] || p in b[1..] {
          assert Before(a[0], p) && p in a && p in b;
        }
      }
      OneSortedOrder(a[1..], b[1..]);
    }
  }

  /** The registry and the discovered speakers determine the pass. */
  lemma {:induction false} PassIsDetermined(states: seq<Registry>, orders: seq<seq<Place>>, states': seq<Registry>, orders': seq<seq<Place>>,
                                            found: seq<Found>, others: seq<DeviceInfo>, n: nat)
    requires IsSortedPass(states, found, orders, others) && IsSortedPass(states', found, orders', others)
    requires states[0] == states'[0] && n <= |found|
    ensures states[n] == states'[n]
  {
    if n > 0 {
      PassIsDetermined(states, orders, states', orders', found, others, n - 1);
      OneSortedOrder(orders[n - 1], orders'[n - 1]);
    }
  }

  /** p comes first among the directories whose records have its key. */
  ghost predicate FirstOfKey(r: Registry, p: Place) {
    p in r && forall q :: q in r && KeyOf(r[q]) == KeyOf(r[p]) && q != p ==> Before(p, q)
  }

  /** Among those, p comes first of the ones that carry the serial. */
  ghost predicate FirstCarrier(r: Registry, serial: string, p: Place) {
    && FirstOfKey(r, p) && Carries(r[p], serial)
    && forall q :: FirstOfKey(r, q) && Carries(r[q], serial) && q != p ==> Before(p, q)
  }

  /** The serial leads to the name. */
  ghost predicate LeadsTo(r: Registry, serial: string, name: string) {
    exists p :: FirstCarrier(r, serial, p) && KeyOf(r[p]) == name
  }

  lemma FirstAtIsFirstOfKey(r: Registry, order: seq<Place>, others: seq<DeviceInfo>, k: nat)
    requires IsOrder(r, order) && Sorted(order) && k < |order|
    ensures FirstAt(Visited(r, order, others), k) <==> FirstOfKey(r, order[k])
  {
    var ds, p := Visited(r, order, others), order[k];
    assert p in r && ds[k] == r[p];
    if FirstAt(ds, k) {
      forall q | q in r && KeyOf(r[q]) == KeyOf(r[p]) && q != p ensures Before(p, q) {
        var m := VisitedAt(r, order, others, q);
      }
    }
    if FirstOfKey(r, p) {
      forall m | 0 <= m < k ensures KeyOf(ds[m]) != KeyOf(ds[k]) {
        assert order[m] in r && ds[m] == r[order[m]];
        PlacesCompare(order[m], p);
      }
    }
  }

  lemma FoundIsFirstCarrier(r: Registry, order: seq<Place>, others: seq<DeviceInfo>, serial: string, k: nat)
    requires IsOrder(r, order) && Sorted(order) && k < |order|
    ensures FoundAt(Visited(r, order, others), serial, k) <==> FirstCarrier(r, serial, order[k])
  {
    var ds, p := Visited(r, order, others), order[k];
    assert p in r && ds[k] == r[p];
    FirstAtIsFirstOfKey(r, order, others, k);
    if FoundAt(ds, serial, k) {
      forall q | FirstOfKey(r, q) && Carries(r[q], serial) && q != p ensures Before(p, q) {
        var m := VisitedAt(r, order, others, q);
        FirstAtIsFirstOfKey(r, order, others, m);
        assert CarrierAt(ds, serial, m);
      }
    }
    if FirstCarrier(r, serial, p) {
      forall m | 0 <= m < k ensures !CarrierAt(ds, serial, m) {
        assert order[m] in r && ds[m] == r[order[m]];
        FirstAtIsFirstOfKey(r, order, others, m);
        PlacesCompare(order[m], p);
      }
    }
  }

  /** The lookup gives the key of a stored record w exactly when the serial leads there. */
  lemma SortedLookup(r: Registry, order: seq<Place>, others: seq<DeviceInfo>, serial: string, w: Place)
    requires IsOrder(r, order) && Sorted(order) && w in r && KeyOf(r[w]) != ""
    ensures Lookup(Listing(r, order, others), serial) == KeyOf(r[w]) <==> LeadsTo(r, serial, KeyOf(r[w]))
  {
    var ds := Visited(r, order, others);
    if Lookup(Dedup(ds), serial) == KeyOf(r[w]) {
      var k := FoundSomewhere(ds, serial);
      var m := VisitedAt(r, order, others, w);
      assert k <= m;
      FoundIsFirstCarrier(r, order, others, serial, k);
      assert order[k] in r && ds[k] == r[order[k]];
    }
    if LeadsTo(r, serial, KeyOf(r[w])) {
      var p :| FirstCarrier(r, serial, p) && KeyOf(r[p]) == KeyOf(r[w]);
      var k := VisitedAt(r, order, others, p);
      FoundIsFirstCarrier(r, order, others, serial, k);
      LookupOf(ds, serial, k);
    }
  }

  /** In turn j the speaker's serial does not lead to the name of a speaker that had its turn before. */
  ghost predicate SerialClear(r: Registry, found: seq<Found>, j: nat) {
    j < |found| && forall i :: 0 <= i < j ==> !LeadsTo(r, found[j].serial, NameFor(found[i]))
  }

  /** So it is in each of the first n turns. */
  ghost predicate NoneLeadsBack(states: seq<Registry>, found: seq<Found>, n: nat) {
    n <= |found| && n < |states|
    && (n == 0 || (NoneLeadsBack(states, found, n - 1) && SerialClear(states[n - 1], found, n - 1)))
  }

  lemma HitsAreLeads(states: seq<Registry>, found: seq<Found>, orders: seq<seq<Place>>, others: seq<DeviceInfo>, i: nat, j: nat)
    requires IsSortedPass(states, found, orders, others) && Resolved(found) && i < j < |found|
    requires StoredAs(states[j], found[i])
    ensures LookupHits(states, found, orders, others, i, j) <==> LeadsTo(states[j], found[j].serial, NameFor(found[i]))
  {
    SortedLookup(states[j], orders[j], others, found[j].serial, PlaceFor(found[i]));
  }

  lemma SortedStoredStep(states: seq<Registry>, found: seq<Found>, orders: seq<seq<Place>>, others: seq<DeviceInfo>, j: nat)
    requires IsSortedPass(states, found, orders, others) && Resolved(found) && j < |found|
    ensures AllStored(states[j + 1], found, j + 1) <==>
              AllStored(states[j], found, j) && SerialClear(states[j], found, j)
  {
    AllStoredStep(states, found, orders, others, j);
    if AllStored(states[j], found, j) {
      forall i: nat | i < j
        ensures LookupHits(states, found, orders, others, i, j) <==> LeadsTo(states[j], found[j].serial, NameFor(found[i]))
      {
        HitsAreLeads(states, found, orders, others, i, j);
      }
    }
  }

  /** Turn j keeps the speakers before it stored exactly when their names are clear of its serial. */
  ghost predicate KeepsIfClear(states: seq<Registry>, found: seq<Found>, j: nat) {
    j < |found| && j + 1 < |states|
    && (AllStored(states[j + 1], found, j + 1) <==> AllStored(states[j], found, j) && SerialClear(states[j], found, j))
  }

  lemma {:induction false} StoredWhileClear(states: seq<Registry>, found: seq<Found>, n: nat)
    requires n <= |found| && n < |states| && forall j :: 0 <= j < n ==> KeepsIfClear(states, found, j)
    ensures AllStored(states[n], found, n) <==> NoneLeadsBack(states, found, n)
  {
    if n > 0 {
      StoredWhileClear(states, found, n - 1);
      assert KeepsIfClear(states, found, n - 1);
    }
  }

  /** What the server's pass keeps, exactly, for any number of speakers: it leaves the first n stored
      exactly when in no turn the first carrier of the speaker's serial, among the first records of
      their keys, has the name of an earlier speaker. */
  lemma {:induction false} SortedStoredIff(states: seq<Registry>, found: seq<Found>, orders: seq<seq<Place>>, others: seq<DeviceInfo>, n: nat)
    requires IsSortedPass(states, found, orders, others) && Resolved(found) && n <= |found|
    ensures AllStored(states[n], found, n) <==> NoneLeadsBack(states, found, n)
  {
    forall j: nat | j < n ensures KeepsIfClear(states, found, j) {
      SortedStoredStep(states, found, orders, others, j);
    }
    StoredWhileClear(states, found, n);
  }

  /** So of two speakers the first one is lost exactly when, after its turn, the first carrier of the
      second one's serial has its name. */
  lemma {:induction false} TwoSpeakersStoredIff(a: Found, b: Found, states: seq<Registry>, orders: seq<seq<Place>>, others: seq<DeviceInfo>)
    requires Resolved([a, b]) && IsSortedPass(states, [a, b], orders, others)
    ensures AllStored(states[2], [a, b], 2) <==> !LeadsTo(states[1], b.serial, NameFor(a))
  {
    var found := [a, b];
    assert found[0] == a && found[1] == b;
    SortedStoredIff(states, found, orders, others, 2);
    assert NoneLeadsBack(states, found, 0) && SerialClear(states[0], found, 0);
    assert NoneLeadsBack(states, found, 1);
    assert SerialClear(states[1], found, 1) <==> !LeadsTo(states[1], b.serial, NameFor(a)) by {
      assert forall i :: 0 <= i < 1 ==> found[i] == a;
    }
  }

  lemma FirstTurnSaves(r: Registry, p: Place, d: DeviceInfo, a: Found, order: seq<Place>, others: seq<DeviceInfo>)
    requires r == map[p := d] && IsOrder(r, order) && Sorted(order)
    requires a.serial != "" && d.deviceId == a.serial && a.diskOk
    ensures Discovered(r, a, order, others) == r[PlaceFor(a) := NormalInfo(InfoFor(a))]
  {
    assert r[p] == d && FirstCarrier(r, a.serial, p);
    SortedLookup(r, order, others, a.serial, p);
  }

  /** A single record with a's id and b's serial, wherever it is: the pass over a and b then loses a
      exactly when that record's directory comes before a's. Its directory may bear its key all the
      same, in another account. */
  lemma {:induction false} OneRecordCostsSpeaker(p: Place, d: DeviceInfo, a: Found, b: Found,
                                                 states: seq<Registry>, orders: seq<seq<Place>>, others: seq<DeviceInfo>)
    requires Resolved([a, b]) && a.serial != "" && b.serial != ""
    requires d.deviceId == a.serial && d.deviceSerialNumber == b.serial
    requires IsSortedPass(states, [a, b], orders, others) && states[0] == map[p := d]
    ensures AllStored(states[2], [a, b], 2) <==> !Before(p, PlaceFor(a))
  {
    assert [a, b][0] == a && [a, b][1] == b;
    TwoSpeakersStoredIff(a, b, states, orders, others);
    FirstTurnSaves(states[0], p, d, a, orders[0], others);
    AfterOneRecord(p, d, a, b);
  }

  lemma AfterOneRecord(p: Place, d: DeviceInfo, a: Found, b: Found)
    requires NameFor(a) != NameFor(b) && a.serial != "" && b.serial != ""
    requires d.deviceId == a.serial && d.deviceSerialNumber == b.serial
    ensures LeadsTo(map[p := d][PlaceFor(a) := NormalInfo(InfoFor(a))], b.serial, NameFor(a)) <==> Before(p, PlaceFor(a))
  {
    var r := map[p := d][PlaceFor(a) := NormalInfo(InfoFor(a))];
    OtherSerial(a, b);
    PlacesCompare(p, PlaceFor(a));
    if Before(p, PlaceFor(a)) {
      assert FirstCarrier(r, b.serial, p);
    }
  }

  // ---------- one turn, field by field ----------

  /** The serial a turn works with: the discovered one, or what asking the speaker gives. */
  predicate HasSerial(d: Found, serial: string) {
    serial == if d.serial == "" then d.liveSerial else d.serial
  }

  /** The directory a speaker gets: in account "default", named by its serial or else its host. */
  ghost predicate HasPlace(d: Found, p: Place) {
    p.account == "default" && exists serial :: HasSerial(d, serial) && p.dir == (if serial == "" then d.host else serial)
  }

  lemma PlaceOf(d: Found, p: Place)
    ensures HasPlace(d, p) <==> p == PlaceFor(d)
  {
    assert HasSerial(d, SerialOf(d));
  }

  /** What is stored for a speaker whose record can be written, and nothing else is written. */
  lemma {:induction false} TurnStoresFields(r: Registry, d: Found, order: seq<Place>, others: seq<DeviceInfo>, p: Place, serial: string)
    requires IsOrder(r, order) && HasPlace(d, p) && HasSerial(d, serial)
    ensures d.diskOk && p.dir != "" ==> p in Discovered(r, d, order, others)
    ensures d.diskOk && p.dir != "" ==>
      var info := Discovered(r, d, order, others)[p];
      && info.deviceId == serial && info.deviceSerialNumber == serial && info.ipAddress == d.host && info.name == d.name
      && info.firmwareVersion == "0.0.0" && info.productSerialNumber == ""
      && info.productCode == (if ' ' in d.modelId then d.modelId else d.modelId + " ")
    ensures forall q :: q in Discovered(r, d, order, others) && (q != p || !d.diskOk || p.dir == "") ==>
      q in r && Discovered(r, d, order, others)[q] == r[q]
  {
    PlaceOf(d, p);
  }

  /** The record p is the first of its id, or of its address when it has no id, and carries the serial as
      its id or as its serial number; and it comes before every other such record. */
  ghost predicate IsKnownAs(r: Registry, serial: string, p: Place, name: string) {
    && serial != "" && FirstOfName(r, p, name) && CarriesSerial(r[p], serial)
    && forall q, other :: FirstOfName(r, q, other) && CarriesSerial(r[q], serial) && q != p ==> Before(p, q)
  }

  predicate CarriesSerial(d: DeviceInfo, serial: string) {
    d.deviceId == serial || d.deviceSerialNumber == serial
  }

  predicate HasName(d: DeviceInfo, name: string) {
    name == if d.deviceId == "" then d.ipAddress else d.deviceId
  }

  ghost predicate FirstOfName(r: Registry, p: Place, name: string) {
    p in r && HasName(r[p], name) && forall q :: q in r && HasName(r[q], name) && q != p ==> Before(p, q)
  }

  lemma FirstOfNameIs(r: Registry, p: Place, name: string)
    ensures FirstOfName(r, p, name) <==> FirstOfKey(r, p) && KeyOf(r[p]) == name
  {
    assert forall q :: q in r ==> (HasName(r[q], name) <==> KeyOf(r[q]) == name);
  }

  lemma KnownIsFirstCarrier(r: Registry, serial: string, p: Place, name: string)
    requires IsKnownAs(r, serial, p, name)
    ensures FirstCarrier(r, serial, p) && KeyOf(r[p]) == name
  {
    FirstOfNameIs(r, p, name);
    forall q | FirstOfKey(r, q) && Carries(r[q], serial) && q != p ensures Before(p, q) {
      FirstOfNameIs(r, q, KeyOf(r[q]));
    }
  }

  /** The clean-up. A speaker known under another name than its serial loses that directory, and no other
      directory goes, in the server's visiting order. */
  lemma {:induction false} TurnCleansUp(r: Registry, d: Found, order: seq<Place>, others: seq<DeviceInfo>, p: Place, name: string)
    requires IsOrder(r, order) && Sorted(order) && IsKnownAs(r, d.serial, p, name)
    ensures name != "" && name != d.serial ==> Place("default", name) !in Discovered(r, d, order, others)
    ensures forall q :: q in r && (q != Place("default", name) || name == "" || name == d.serial) ==>
      q in Discovered(r, d, order, others)
  {
    KnownIsFirstCarrier(r, d.serial, p, name);
    LookupIsFirstCarrier(r, order, others, d.serial, p);
  }

  lemma LookupIsFirstCarrier(r: Registry, order: seq<Place>, others: seq<DeviceInfo>, serial: string, p: Place)
    requires IsOrder(r, order) && Sorted(order) && FirstCarrier(r, serial, p)
    ensures Lookup(Listing(r, order, others), serial) == KeyOf(r[p])
  {
    var k := VisitedAt(r, order, others, p);
    FoundIsFirstCarrier(r, order, others, serial, k);
    LookupOf(Visited(r, order, others), serial, k);
  }

  /** Without a discovered serial, or with one that no record carries, no directory goes. */
  lemma {:induction false} TurnKeepsUnknown(r: Registry, d: Found, order: seq<Place>, others: seq<DeviceInfo>)
    requires IsOrder(r, order)
    requires d.serial == "" || ((forall q :: q in r ==> !CarriesSerial(r[q], d.serial))
                                && forall x :: x in others ==> !CarriesSerial(x, d.serial))
    ensures forall q :: q in r ==> q in Discovered(r, d, order, others)
  {
    if Lookup(Listing(r, order, others), d.serial) != "" {
      LookupIsCarried(r, order, others, d.serial);
    }
  }

  // ---------- registries with proper names ----------

  predicate InDefault(r: Registry) {
    forall p :: p in r ==> p.account == DEFAULT_ACCOUNT
  }

  /** What the first n turns deleted carried the serial of the speaker whose turn it was. */
  ghost predicate DeletedBySerial(states: seq<Registry>, found: seq<Found>, n: nat) {
    n < |states| && n <= |found| && forall p :: p in states[0] && p !in states[n] ==>
      exists i :: 0 <= i < n && p in states[i] && Carries(states[i][p], found[i].serial)
  }

  lemma {:induction false} PassKeepsNames(states: seq<Registry>, found: seq<Found>, orders: seq<seq<Place>>, others: seq<DeviceInfo>, n: nat)
    requires IsPass(states, found, orders, others) && n <= |found| && Named(states[0]) && InDefault(states[0])
    ensures Named(states[n]) && InDefault(states[n])
  {
    if n > 0 {
      PassKeepsNames(states, found, orders, others, n - 1);
      DiscoveredKeepsNames(states[n - 1], found[n - 1], orders[n - 1], others);
    }
  }

  lemma CarriesItself(r: Registry, others: seq<DeviceInfo>, serial: string, p: Place)
    requires Named(r) && InDefault(r) && p in r && CarriedUnder(r, others, serial, p.dir)
    ensures Carries(r[p], serial)
  {
    assert KeyOf(r[p]) == p.dir;
    var q :| q in r && Carries(r[q], serial) && KeyOf(r[q]) == p.dir;
    assert q == p;
  }

  lemma PassDeletesBySerial(states: seq<Registry>, found: seq<Found>, orders: seq<seq<Place>>, others: seq<DeviceInfo>)
    requires IsPass(states, found, orders, others) && Named(states[0]) && InDefault(states[0])
    ensures DeletedBySerial(states, found, |found|)
  {
    PassDeletes(states, found, orders, others, |found|);
    forall p | p in states[0] && p !in states[|found|]
      ensures exists i :: 0 <= i < |found| && p in states[i] && Carries(states[i][p], found[i].serial)
    {
      var i :| 0 <= i < |found| && p in states[i] && CarriedUnder(states[i], others, found[i].serial, p.dir);
      PassKeepsNames(states, found, orders, others, i);
      CarriesItself(states[i], others, found[i].serial, p);
    }
  }

  /** Where directories of one account bear their records' keys, nothing threatens a speaker: a pass
      leaves every one stored, and deletes only directories whose own record carried the serial of a
      speaker when it was looked up. */
  lemma {:induction false} PassEffect(states: seq<Registry>, found: seq<Found>, orders: seq<seq<Place>>, others: seq<DeviceInfo>)
    requires IsPass(states, found, orders, others) && Resolved(found) && Named(states[0]) && InDefault(states[0])
    ensures AllStored(states[|found|], found, |found|)
    ensures DeletedBySerial(states, found, |found|)
    ensures OthersUntouched(states[0], states[|found|], found, |found|)
  {
    UnthreatenedAreStored(states, found, orders, others, |found|);
    PassDeletesBySerial(states, found, orders, others);
    PassTouches(states, found, orders, others, |found|);
  }

  // ---------- passes on states the server built ----------

  /** In the alternative data directory, too, every serial number recorded is the record's device id. */
  predicate SerialsOwned(others: seq<DeviceInfo>) {
    forall d :: d in others && d.deviceSerialNumber != "" ==> d.deviceSerialNumber == d.deviceId
  }

  lemma LookupIsSerial(r: Registry, order: seq<Place>, others: seq<DeviceInfo>, serial: string)
    requires SerialsAreIds(r) && SerialsOwned(others) && IsOrder(r, order)
    ensures Lookup(Listing(r, order, others), serial) == "" || Lookup(Listing(r, order, others), serial) == serial
  {
    if Lookup(Listing(r, order, others), serial) != "" {
      LookupIsCarried(r, order, others, serial);
    }
  }

  /** Where recorded serials are device ids, a record that carries the serial is already stored under
      it: the clean-up of an entry under another name never happens, whatever the accounts. */
  lemma {:induction false} TurnOnlySaves(r: Registry, d: Found, order: seq<Place>, others: seq<DeviceInfo>)
    requires SerialsAreIds(r) && SerialsOwned(others) && IsOrder(r, order)
    ensures Discovered(r, d, order, others) == Saved(r, DEFAULT_ACCOUNT, NameFor(d), InfoFor(d), d.diskOk)
  {
    LookupIsSerial(r, order, others, d.serial);
    assert Lookup(Listing(r, order, others), "") == "" || d.serial != "";
  }

  /** So there nothing threatens a speaker: every pass leaves every one stored, whatever the accounts. */
  lemma {:induction false} ServerBuiltAreStored(states: seq<Registry>, found: seq<Found>, orders: seq<seq<Place>>, others: seq<DeviceInfo>)
    requires IsPass(states, found, orders, others) && Resolved(found) && SerialsAreIds(states[0])
    ensures !Threatened(states[0], found)
    ensures AllStored(states[|found|], found, |found|)
  {
    UnthreatenedAreStored(states, found, orders, others, |found|);
  }

  /** An entry stored under a host address, before the serial was known, stays when the serial shows up. */
  lemma {:induction false} HostEntryStays(r: Registry, d: Found, order: seq<Place>, others: seq<DeviceInfo>, host: string)
    requires SerialsAreIds(r) && SerialsOwned(others) && IsOrder(r, order) && Place(DEFAULT_ACCOUNT, host) in r && NameFor(d) != host
    ensures Place(DEFAULT_ACCOUNT, host) in Discovered(r, d, order, others)
    ensures Discovered(r, d, order, others)[Place(DEFAULT_ACCOUNT, host)] == r[Place(DEFAULT_ACCOUNT, host)]
  {
    TurnOnlySaves(r, d, order, others);
  }

  /** The records a pass writes, the last one for each name. */
  function Writes(found: seq<Found>): Registry {
    if found == [] then map[]
    else
      var d := found[|found| - 1];
      Saved(Writes(found[..|found| - 1]), DEFAULT_ACCOUNT, NameFor(d), InfoFor(d), d.diskOk)
  }

  lemma {:induction false} PassWrites(states: seq<Registry>, found: seq<Found>, orders: seq<seq<Place>>, others: seq<DeviceInfo>)
    requires IsPass(states, found, orders, others) && Named(states[0]) && SerialsAreIds(states[0]) && SerialsOwned(others)
    ensures Named(states[|found|]) && SerialsAreIds(states[|found|])
    ensures states[|found|] == states[0] + Writes(found)
  {
    if found != [] {
      var n := |found| - 1;
      PassWrites(states[..n + 1], found[..n], orders[..n], others);
      DiscoveredKeepsNames(states[n], found[n], orders[n], others);
      TurnOnlySaves(states[n], found[n], orders[n], others);
      var d := found[n];
      SavedOver(states[0], Writes(found[..n]), NameFor(d), InfoFor(d), d.diskOk);
    }
  }

  lemma SavedOver(r: Registry, w: Registry, device: string, info: DeviceInfo, diskOk: bool)
    ensures Saved(r + w, DEFAULT_ACCOUNT, device, info, diskOk) == r + Saved(w, DEFAULT_ACCOUNT, device, info, diskOk)
  {
  }

  /** On a state the server built, running the same pass again changes nothing, whatever the order in
      which either pass visits the directories and whichever of its writes fail. */
  lemma {:induction false} SamePassAgain(first: seq<Registry>, orders1: seq<seq<Place>>, second: seq<Registry>, orders2: seq<seq<Place>>,
                                         found: seq<Found>, others: seq<DeviceInfo>)
    requires IsPass(first, found, orders1, others) && IsPass(second, found, orders2, others)
    requires Named(first[0]) && SerialsAreIds(first[0]) && SerialsOwned(others) && second[0] == first[|found|]
    ensures second[|found|] == first[|found|]
  {
    PassWrites(first, found, orders1, others);
    PassWrites(second, found, orders2, others);
  }
}
