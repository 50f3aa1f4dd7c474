/**
 * lib/TownsStore.js: the registry of the server's towns.  It lists the public ones, creates
 * towns, and lets the holder of a town's update password rename, relist or delete it.
 * Town.js is not part of this model: a town here carries only what the store reads and
 * writes.
 */
module TownsStores {
  import opened Wrappers
  import opened Errors

  /** A town as the store sees it. */
  class Town {
    const townID: string
    const townUpdatePassword: string
    const capacity: nat
    var friendlyName: string
    var isPubliclyListed: bool
    var occupancy: nat

    /** A new town with nobody in it. */
    constructor(friendlyName: string, isPubliclyListed: bool, townID: string,
                townUpdatePassword: string, capacity: nat)
      ensures this.friendlyName == friendlyName && this.isPubliclyListed == isPubliclyListed
      ensures this.townID == townID && this.townUpdatePassword == townUpdatePassword
      ensures this.capacity == capacity && occupancy == 0
    {
      this.friendlyName := friendlyName;
      this.isPubliclyListed := isPubliclyListed;
      this.townID := townID;
      this.townUpdatePassword := townUpdatePassword;
      this.capacity := capacity;
      occupancy := 0;
    }
  }

  /** One entry of the public town list. */
  datatype TownListing = TownListing(
    townID: string, friendlyName: string, currentOccupancy: nat, maximumOccupancy: nat)

  // ----- Passwords -------------------------------------------------------------------------

  /**
   * `passwordMatches` as written: the master-password branch tests that MASTER_TOWN_PASSWORD
   * is set but compares against the misspelled MASTER_TOWN_PASWORD.
   */
  function PasswordMatchesAsWritten(provided: string, expected: string,
                                    master: Option<string>, misspelled: Option<string>): (r: bool)
    ensures provided == expected ==> r
    ensures r && provided != expected ==> misspelled == Some(provided)
  {
    provided == expected || (master.Some? && master.value != "" && misspelled == Some(provided))
  }

  /**
   * As written, the real master password opens no town: with MASTER_TOWN_PASWORD unset,
   * giving the master password "m" for a town whose password is "p" is refused.
   */
  lemma MasterPasswordRefusedAsWritten()
    ensures !PasswordMatchesAsWritten("m", "p", Some("m"), None)
    ensures PasswordMatches("m", "p", Some("m"))
  {
  }

  /** The evident intent: the town's own password, or the master password when one is set. */
  function PasswordMatches(provided: string, expected: string, master: Option<string>): (r: bool)
    ensures provided == expected ==> r
    ensures r && provided != expected ==> master == Some(provided)
  {
    provided == expected || (master.Some? && master.value != "" && master.value == provided)
  }

  /** With a master password set, it opens every town. */
  lemma MasterOpensEveryTown(master: string, expected: string)
    requires master != ""
    ensures PasswordMatches(master, expected, Some(master))
  {
  }

  /** With no master password (unset or empty), only the town's own password matches. */
  lemma NoMasterMeansOwnPassword(provided: string, expected: string, master: Option<string>)
    requires master.None? || master.value == ""
    ensures PasswordMatches(provided, expected, master) <==> provided == expected
  {
  }

  // ----- Town lists ------------------------------------------------------------------------

  /** `towns.find(town => town.townID === townID)`, as the position of the first match. */
  function FindTown(towns: seq<Town>, townID: string): (r: Option<nat>)
    ensures r.Some? ==> r.value < |towns| && towns[r.value].townID == townID
    ensures r.Some? ==> forall j :: 0 <= j < r.value ==> towns[j].townID != townID
    ensures r.None? <==> forall j :: 0 <= j < |towns| ==> towns[j].townID != townID
  {
    if towns == [] then None
    else if towns[0].townID == townID then Some(0)
    else match FindTown(towns[1..], townID)
      case None => None
      case Some(k) => Some(k + 1)
  }

  /** The listing entry of one town. */
  function ListingOf(t: Town): TownListing
    reads t
  {
    TownListing(t.townID, t.friendlyName, t.occupancy, t.capacity)
  }

  /** `l` is the listing of some public town among `towns`. */
  ghost predicate ListedFrom(towns: seq<Town>, l: TownListing)
    reads towns
  {
    exists i :: 0 <= i < |towns| && towns[i].isPubliclyListed && l == ListingOf(towns[i])
  }

  /** `filter(isPubliclyListed).map(...)`: the listing of each public town, in store order. */
  function Listings(towns: seq<Town>): (r: seq<TownListing>)
    reads towns
    ensures |r| <= |towns|
    ensures forall i :: 0 <= i < |towns| && towns[i].isPubliclyListed ==> ListingOf(towns[i]) in r
    ensures forall k :: 0 <= k < |r| ==> ListedFrom(towns, r[k])
  {
    if towns == [] then []
    else
      var rest := Listings(towns[1..]);
      var r := if towns[0].isPubliclyListed then [ListingOf(towns[0])] + rest else rest;
      assert forall i :: 1 <= i < |towns| ==> towns[i] == towns[1..][i - 1];
      assert forall k :: 0 <= k < |r| ==> ListedFrom(towns, r[k]) by {
        forall k | 0 <= k < |r|
          ensures ListedFrom(towns, r[k])
        {
          if !(towns[0].isPubliclyListed && k == 0) {
            var j := if towns[0].isPubliclyListed then k - 1 else k;
            assert r[k] == rest[j] && ListedFrom(towns[1..], rest[j]);
            var i :| 0 <= i < |towns[1..]| && towns[1..][i].isPubliclyListed && rest[j] == ListingOf(towns[1..][i]);
            assert towns[i + 1] == towns[1..][i];
          }
        }
      }
      r
  }

  /** A town added at the end is listed after all the others, and only if it is public. */
  lemma {:induction false} ListingsSnoc(towns: seq<Town>, t: Town)
    ensures Listings(towns + [t]) == Listings(towns) + (if t.isPubliclyListed then [ListingOf(t)] else [])
  {
    if towns == [] {
      assert [t][1..] == [];
    } else {
      assert (towns + [t])[1..] == towns[1..] + [t];
      ListingsSnoc(towns[1..], t);
    }
  }

  /** `towns.filter(town => town !== existing)`: by reference, keeping the others in order. */
  function WithoutTown(towns: seq<Town>, gone: Town): (r: seq<Town>)
    ensures forall i :: 0 <= i < |r| ==> r[i] in towns && r[i] != gone
    ensures forall i :: 0 <= i < |towns| && towns[i] != gone ==> towns[i] in r
    ensures gone !in towns ==> r == towns
    ensures |r| <= |towns|
  {
    if towns == [] then []
    else if towns[0] == gone then WithoutTown(towns[1..], gone)
    else [towns[0]] + WithoutTown(towns[1..], gone)
  }

  /** The filter works piece by piece, so the remaining towns keep their order. */
  lemma {:induction false} WithoutTownConcat(a: seq<Town>, b: seq<Town>, gone: Town)
    ensures WithoutTown(a + b, gone) == WithoutTown(a, gone) + WithoutTown(b, gone)
  {
    if a == [] {
      assert a + b == b;
    } else {
      assert (a + b)[1..] == a[1..] + b;
      WithoutTownConcat(a[1..], b, gone);
    }
  }

  /** No town object is registered twice. */
  predicate Distinct(towns: seq<Town>)
  {
    forall i, j :: 0 <= i < j < |towns| ==> towns[i] != towns[j]
  }

  class TownsStore {
    var towns: seq<Town>
    /** MASTER_TOWN_PASSWORD and DEMO_TOWN_ID of the environment. */
    const masterPassword: Option<string>
    const demoTownID: Option<string>
    /** The towns whose players were disconnected when they were deleted, in order. */
    ghost var disconnected: seq<Town>

    /** An empty store. */
    constructor(masterPassword: Option<string>, demoTownID: Option<string>)
      ensures towns == [] && disconnected == []
      ensures this.masterPassword == masterPassword && this.demoTownID == demoTownID
    {
      towns := [];
      disconnected := [];
      this.masterPassword := masterPassword;
      this.demoTownID := demoTownID;
    }

    ghost predicate Valid()
      reads this
    {
      Distinct(towns)
    }

    /** `getTownByID`: the first town with that id, or none. */
    function GetTownByID(townID: string): (r: Option<Town>)
      reads this
      ensures r.None? <==> forall j :: 0 <= j < |towns| ==> towns[j].townID != townID
      ensures r.Some? ==> exists i :: 0 <= i < |towns| && towns[i] == r.value && r.value.townID == townID &&
                                      forall j :: 0 <= j < i ==> towns[j].townID != townID
    {
      match FindTown(towns, townID)
      case None => None
      case Some(i) => Some(towns[i])
    }

    /** `getTowns`: the public towns with id, name, occupancy and capacity. */
    function GetTowns(): (r: seq<TownListing>)
      reads this, towns
      ensures |r| <= |towns|
      ensures forall i :: 0 <= i < |towns| && towns[i].isPubliclyListed ==> ListingOf(towns[i]) in r
      ensures forall k :: 0 <= k < |r| ==> ListedFrom(towns, r[k])
    {
      Listings(towns)
    }

    /**
     * `createTown`, without reading the map: an empty name is refused before anything is
     * made; otherwise exactly one new town is registered at the end.  Its id is the name when
     * the name is DEMO_TOWN_ID, and `newTownID` (a nanoid in the source) otherwise.
     */
    method CreateTown(friendlyName: string, isPubliclyListed: bool, newTownID: string,
                      townUpdatePassword: string, capacity: nat) returns (r: Result<Town, Error>)
      requires Valid()
      modifies this`towns
      ensures Valid()
      ensures friendlyName == "" <==> r.Failure?
      ensures r.Failure? ==> r.error == FriendlyNameRequired && towns == old(towns)
      ensures r.Success? ==>
        && fresh(r.value) && towns == old(towns) + [r.value]
        && r.value.townID == (if demoTownID == Some(friendlyName) then friendlyName else newTownID)
        && r.value.friendlyName == friendlyName && r.value.isPubliclyListed == isPubliclyListed
        && r.value.townUpdatePassword == townUpdatePassword && r.value.capacity == capacity
        && r.value.occupancy == 0
        && GetTowns() == old(GetTowns()) + (if isPubliclyListed then [ListingOf(r.value)] else [])
    {
      if |friendlyName| == 0 {
        return Failure(FriendlyNameRequired);
      }
      var townID := if demoTownID == Some(friendlyName) then friendlyName else newTownID;
      var town := new Town(friendlyName, isPubliclyListed, townID, townUpdatePassword, capacity);
      ListingsSnoc(towns, town);
      towns := towns + [town];
      r := Success(town);
    }

    /**
     * `updateTown`: it succeeds iff the town exists, the password matches and no empty name
     * is given; then it applies exactly the fields that were given.  On failure no town
     * changes, so there is never a partial update.
     */
    method UpdateTown(townID: string, password: string, friendlyName: Option<string>,
                      makePublic: Option<bool>) returns (ok: bool)
      requires Valid()
      modifies towns
      ensures var i := FindTown(towns, townID);
        ok <==> i.Some? && PasswordMatches(password, towns[i.value].townUpdatePassword, masterPassword)
                && friendlyName != Some("")
      ensures ok ==> var t := GetTownByID(townID).value;
        && t.friendlyName == (if friendlyName.Some? then friendlyName.value else old(t.friendlyName))
        && t.isPubliclyListed == (if makePublic.Some? then makePublic.value else old(t.isPubliclyListed))
      ensures forall j :: 0 <= j < |towns| && (!ok || FindTown(towns, townID) != Some(j)) ==>
        towns[j].friendlyName == old(towns[j].friendlyName) &&
        towns[j].isPubliclyListed == old(towns[j].isPubliclyListed)
      ensures forall j :: 0 <= j < |towns| ==> towns[j].occupancy == old(towns[j].occupancy)
    {
      var found := FindTown(towns, townID);
      if found.None? {
        return false;
      }
      var town := towns[found.value];
      if !PasswordMatches(password, town.townUpdatePassword, masterPassword) {
        return false;
      }
      if friendlyName.Some? {
        if |friendlyName.value| == 0 {
          return false;
        }
        town.friendlyName := friendlyName.value;
      }
      if makePublic.Some? {
        town.isPubliclyListed := makePublic.value;
      }
      ok := true;
    }

    /**
     * `deleteTown`: it succeeds iff the town exists and the password matches; then exactly
     * that town leaves the store and its players are disconnected.  On failure nothing
     * changes.
     */
    method DeleteTown(townID: string, password: string) returns (ok: bool)
      requires Valid()
      modifies this`towns, this`disconnected
      ensures Valid()
      ensures var i := FindTown(old(towns), townID);
        ok <==> i.Some? && PasswordMatches(password, old(towns)[i.value].townUpdatePassword, masterPassword)
      ensures ok ==> var gone := old(GetTownByID(townID)).value;
        && towns == WithoutTown(old(towns), gone) && gone !in towns && |towns| == |old(towns)| - 1
        && disconnected == old(disconnected) + [gone]
      ensures !ok ==> towns == old(towns) && disconnected == old(disconnected)
    {
      var found := FindTown(towns, townID);
      if found.None? {
        return false;
      }
      var town := towns[found.value];
      if !PasswordMatches(password, town.townUpdatePassword, masterPassword) {
        return false;
      }
      WithoutDistinct(towns, found.value);
      towns := WithoutTown(towns, town);
      disconnected := disconnected + [town];
      ok := true;
    }
  }

  /** Removing a town that is registered once drops one entry and keeps the rest distinct. */
  lemma {:induction false} WithoutDistinct(towns: seq<Town>, i: nat)
    requires Distinct(towns) && i < |towns|
    ensures Distinct(WithoutTown(towns, towns[i]))
    ensures |WithoutTown(towns, towns[i])| == |towns| - 1
    ensures towns[i] !in WithoutTown(towns, towns[i])
  {
    if i == 0 {
      assert towns[0] !in towns[1..];
      assert WithoutTown(towns[1..], towns[0]) == towns[1..];
    } else {
      assert towns[1..][i - 1] == towns[i];
      WithoutDistinct(towns[1..], i - 1);
      assert towns[0] !in WithoutTown(towns[1..], towns[i]);
    }
  }
}
