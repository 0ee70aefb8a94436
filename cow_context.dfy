/**
 * The in-memory catalogue shared by the screens: the cow list and the filters, kept beside the
 * repository, and the filter engine that decides which cows the list shows.
 */
module CowContext {
  import opened Wrappers
  import opened Seqs
  import opened Text
  import opened CowTypes
  import opened Storage

  /** The search test: an empty query accepts every cow, otherwise its lower case occurs in the lower-cased ear tag. */
  predicate SearchMatches(f: CowFilters, c: Cow)
  {
    f.searchQuery == [] || Contains(ToLower(c.earTag), ToLower(f.searchQuery))
  }

  /** The status test: `'all'` accepts every cow, otherwise the status must be the chosen one. */
  predicate StatusMatches(f: CowFilters, c: Cow)
  {
    f.statusFilter == All || f.statusFilter == Only(c.status)
  }

  /** The pen test: an empty pen filter accepts every cow, otherwise the pen must be equal to it. */
  predicate PenMatches(f: CowFilters, c: Cow)
  {
    f.penFilter == [] || c.pen == f.penFilter
  }

  /** The callback given to `cows.filter`, with its three early returns. */
  predicate Passes(f: CowFilters, c: Cow)
    ensures Passes(f, c) <==> SearchMatches(f, c) && StatusMatches(f, c) && PenMatches(f, c)
  {
    if f.searchQuery != [] && !Contains(ToLower(c.earTag), ToLower(f.searchQuery)) then false
    else if !f.statusFilter.All? && c.status != f.statusFilter.status then false
    else if f.penFilter != [] && c.pen != f.penFilter then false
    else true
  }

  function PassesFilters(f: CowFilters): (p: Cow -> bool)
  {
    (c: Cow) => Passes(f, c)
  }

  /**
   * `getFilteredCows` on the list `cows` under the filters `f`: a cow is kept exactly when it passes
   * all three tests.
   */
  function ApplyFilters(cows: seq<Cow>, f: CowFilters): (r: seq<Cow>)
    ensures forall i :: 0 <= i < |r| ==>
      r[i] in cows && SearchMatches(f, r[i]) && StatusMatches(f, r[i]) && PenMatches(f, r[i])
    ensures forall j :: 0 <= j < |cows| ==>
      (SearchMatches(f, cows[j]) && StatusMatches(f, cows[j]) && PenMatches(f, cows[j]) ==> cows[j] in r)
  {
    var r := Filter(cows, PassesFilters(f));
    assert forall i :: 0 <= i < |r| ==> Passes(f, r[i]);
    r
  }

  /** Filtering keeps the list's order: the shown cows are a subsequence of the catalogue. */
  lemma ApplyFiltersIsSubsequence(cows: seq<Cow>, f: CowFilters)
    ensures IsSubsequence(ApplyFilters(cows, f), cows)
  {
    FilterIsSubsequence(cows, PassesFilters(f));
  }

  /** Filtering a concatenation filters each part. */
  lemma ApplyFiltersAppend(a: seq<Cow>, b: seq<Cow>, f: CowFilters)
    ensures ApplyFilters(a + b, f) == ApplyFilters(a, f) + ApplyFilters(b, f)
  {
    FilterAppend(a, b, PassesFilters(f));
  }

  /** The default filters show the whole catalogue, in order. */
  lemma DefaultFiltersShowAll(cows: seq<Cow>)
    ensures ApplyFilters(cows, DefaultFilters) == cows
  {
    FilterKeepsAll(cows, PassesFilters(DefaultFilters));
  }

  /** With a status chosen, every shown cow has that status. */
  lemma StatusFilterShowsOnly(cows: seq<Cow>, f: CowFilters, s: CowStatus)
    requires f.statusFilter == Only(s)
    ensures forall i :: 0 <= i < |ApplyFilters(cows, f)| ==> ApplyFilters(cows, f)[i].status == s
  {
  }

  /** The callback given to `prev.map` in `updateCow`: `u` in place of a cow with its id. */
  function Substitute(u: Cow): (f: Cow -> Cow)
  {
    (c: Cow) => if c.id == u.id then u else c
  }

  /** `cows` with every cow that has `u`'s id replaced by `u`. */
  function ReplaceAllById(cows: seq<Cow>, u: Cow): (r: seq<Cow>)
    ensures |r| == |cows|
    ensures forall j :: 0 <= j < |cows| && cows[j].id == u.id ==> r[j] == u
    ensures forall j :: 0 <= j < |cows| && cows[j].id != u.id ==> r[j] == cows[j]
  {
    Map(cows, Substitute(u))
  }

  ghost predicate DistinctIds(cows: seq<Cow>)
  {
    forall i, j :: 0 <= i < j < |cows| ==> cows[i].id != cows[j].id
  }

  /**
   * When ids are distinct, replacing every match in memory and replacing the first match in the
   * store give the same collection.
   */
  lemma ReplaceAllAgreesWithStore(cows: seq<Cow>, u: Cow)
    requires DistinctIds(cows)
    ensures ReplaceAllById(cows, u) == ReplaceFirstById(cows, u)
  {
    var a, b := ReplaceAllById(cows, u), ReplaceFirstById(cows, u);
    forall j | 0 <= j < |cows| ensures a[j] == b[j] {
      if cows[j].id == u.id {
        assert forall k :: 0 <= k < j ==> cows[k].id != u.id;
      }
    }
  }

  /** After an update, looking up `u`'s id finds `u` exactly when some cow had that id. */
  lemma FindAfterReplaceAll(cows: seq<Cow>, u: Cow)
    ensures Find(ReplaceAllById(cows, u), IdIs(u.id)) ==
      if exists j :: 0 <= j < |cows| && cows[j].id == u.id then Some(u) else None
  {
    var r := ReplaceAllById(cows, u);
    assert forall j :: 0 <= j < |r| ==> (IdIs(u.id)(r[j]) <==> cows[j].id == u.id);
    if exists j :: 0 <= j < |cows| && cows[j].id == u.id {
      var hit := Find(r, IdIs(u.id));
      var j :| 0 <= j < |r| && r[j] == hit.value && IdIs(u.id)(r[j]);
      assert cows[j].id == u.id;
    }
  }

  /** The provider: the shared in-memory cow list and filters, written through to the repository. */
  class CowProvider {
    const store: CowStore
    var cows: seq<Cow>
    var filters: CowFilters

    /** The provider's state before anything is loaded: no cows and the default filters. */
    constructor (store: CowStore)
      ensures this.store == store && cows == [] && filters == DefaultFilters
    {
      this.store := store;
      cows := [];
      filters := DefaultFilters;
    }

    /** Memory and store hold the same cows, perhaps in different orders. */
    ghost predicate InSync()
      reads this, store
    {
      multiset(cows) == multiset(store.Listed())
    }

    /** `getCowById`: the first cow in memory with the given id. */
    function GetCowById(id: string): (r: Option<Cow>)
      reads this
      ensures r.None? <==> forall j :: 0 <= j < |cows| ==> cows[j].id != id
      ensures r.Some? ==> r.value.id == id
      ensures r.Some? ==>
        exists j :: 0 <= j < |cows| && cows[j] == r.value && forall k :: 0 <= k < j ==> cows[k].id != id
    {
      Find(cows, IdIs(id))
    }

    /** `getFilteredCows`: the cows in memory that pass the current filters, in memory order. */
    function GetFilteredCows(): (r: seq<Cow>)
      reads this
      ensures IsSubsequence(r, cows)
      ensures forall i :: 0 <= i < |r| ==> Passes(filters, r[i])
      ensures forall j :: 0 <= j < |cows| && Passes(filters, cows[j]) ==> cows[j] in r
    {
      ApplyFiltersIsSubsequence(cows, filters);
      ApplyFilters(cows, filters)
    }

    /**
     * `addCow`: appends to the store first; only when that write succeeds is the cow put at the
     * front of the in-memory list. A failed write is rethrown and memory is left as it was.
     */
    method AddCow(cow: Cow, readFails: bool, writeFails: bool) returns (r: Outcome<StorageError>)
      modifies this, store
      ensures r.Fail? <==> writeFails
      ensures store.cows == if writeFails then old(store.cows)
                            else Some((if readFails then [] else old(store.Listed())) + [cow])
      ensures store.filters == old(store.filters) && filters == old(filters)
      ensures cows == if writeFails then old(cows) else [cow] + old(cows)
      ensures old(InSync()) && !readFails ==> InSync()
    {
      r := store.AddCow(cow, readFails, writeFails);
      if r.Pass? {
        cows := [cow] + cows;
      }
    }

    /**
     * `updateCow`: updates the store first; when that does not throw, every in-memory cow with
     * `u`'s id is replaced by `u`, even when the store had no such cow and wrote nothing.
     */
    method UpdateCow(u: Cow, readFails: bool, writeFails: bool) returns (r: Outcome<StorageError>)
      modifies this, store
      ensures var read := if readFails then [] else old(store.Listed());
        var found := exists j :: 0 <= j < |read| && read[j].id == u.id;
        && (r.Fail? <==> found && writeFails)
        && store.cows == (if found && !writeFails then Some(ReplaceFirstById(read, u)) else old(store.cows))
      ensures store.filters == old(store.filters) && filters == old(filters)
      ensures cows == if r.Fail? then old(cows) else ReplaceAllById(old(cows), u)
    {
      r := store.UpdateCow(u, readFails, writeFails);
      if r.Pass? {
        cows := ReplaceAllById(cows, u);
      }
    }

    /** `setFilters`: memory takes the new filters at once; the store keeps them only if its write succeeds. */
    method SetFilters(f: CowFilters, writeFails: bool)
      modifies this, store
      ensures filters == f && cows == old(cows)
      ensures store.filters == if writeFails then old(store.filters) else Some(f)
      ensures store.cows == old(store.cows)
    {
      filters := f;
      store.SaveFilters(f, writeFails);
    }

    /** `refreshCows`: memory takes the stored collection; a failed read leaves memory empty. */
    method RefreshCows(readFails: bool)
      modifies this
      ensures cows == if readFails then [] else store.Listed()
      ensures filters == old(filters)
      ensures !readFails ==> InSync()
    {
      cows := store.GetCows(readFails);
    }
  }
}
