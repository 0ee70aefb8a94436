/**
 * The catalogue repository: a read-modify-write layer over a store with two keys, one for the
 * cow collection and one for the filters. Every stored value is read back as it was written.
 */
module Storage {
  import opened Wrappers
  import opened Seqs
  import opened Text
  import opened CowTypes

  /** The opaque I/O failure the store reports and the repository rethrows. */
  datatype StorageError = StorageError

  /** Whether a cow has the identifier `id`. */
  function IdIs(id: string): (p: Cow -> bool)
  {
    (c: Cow) => c.id == id
  }

  /** Whether a cow's ear tag equals `tag` when both are lower-cased. */
  function EarTagIs(tag: string): (p: Cow -> bool)
  {
    (c: Cow) => ToLower(c.earTag) == ToLower(tag)
  }

  /** The first cow whose ear tag matches `tag` regardless of case. */
  function FindByEarTag(cows: seq<Cow>, tag: string): (r: Option<Cow>)
    ensures r.None? <==> forall j :: 0 <= j < |cows| ==> ToLower(cows[j].earTag) != ToLower(tag)
    ensures r.Some? ==>
      exists j :: 0 <= j < |cows| && cows[j] == r.value && ToLower(cows[j].earTag) == ToLower(tag) &&
        forall k :: 0 <= k < j ==> ToLower(cows[k].earTag) != ToLower(tag)
  {
    Find(cows, EarTagIs(tag))
  }

  /** A lookup depends on the tag only through its lower case. */
  lemma FindByEarTagIgnoresCase(cows: seq<Cow>, t1: string, t2: string)
    requires ToLower(t1) == ToLower(t2)
    ensures FindByEarTag(cows, t1) == FindByEarTag(cows, t2)
  {
    assert EarTagIs(t1) == EarTagIs(t2);
  }

  /** `cows` with the first cow that has `u`'s id replaced by `u`; unchanged when no cow has it. */
  function ReplaceFirstById(cows: seq<Cow>, u: Cow): (r: seq<Cow>)
    ensures |r| == |cows|
    ensures forall j :: 0 <= j < |cows| ==>
      r[j] == if cows[j].id == u.id && forall k :: 0 <= k < j ==> cows[k].id != u.id then u else cows[j]
  {
    var i := FirstIndex(cows, IdIs(u.id));
    if i == -1 then cows else cows[i := u]
  }

  class CowStore {
    /** The value under the cow collection key; None when the key is absent. */
    var cows: Option<seq<Cow>>
    /** The value under the filters key; None when the key is absent. */
    var filters: Option<CowFilters>

    /** An empty store: neither key is present. */
    constructor ()
      ensures cows == None && filters == None
    {
      cows := None;
      filters := None;
    }

    /** The stored collection, or the empty one when the key is absent. */
    function Listed(): (r: seq<Cow>)
      reads this
      ensures cows.None? ==> r == []
      ensures cows.Some? ==> r == cows.value
    {
      match cows
      case None => []
      case Some(s) => s
    }

    /** `getCows`: the stored collection; a failed read is logged and yields the empty collection. */
    method GetCows(readFails: bool) returns (r: seq<Cow>)
      ensures readFails || cows.None? ==> r == []
      ensures !readFails && cows.Some? ==> r == cows.value
    {
      if readFails {
        r := [];
      } else {
        r := Listed();
      }
    }

    /** `saveCows`: overwrites the collection key; a failed write leaves it and is rethrown. */
    method SaveCows(list: seq<Cow>, writeFails: bool) returns (r: Outcome<StorageError>)
      modifies this`cows
      ensures r.Fail? <==> writeFails
      ensures cows == if writeFails then old(cows) else Some(list)
    {
      if writeFails {
        r := Fail(StorageError);
      } else {
        cows := Some(list);
        r := Pass;
      }
    }

    /**
     * `addCow`: reads the collection, appends `cow` and writes the whole collection back.
     * A failed read makes the read yield the empty collection, so the write then stores `[cow]` alone.
     */
    method AddCow(cow: Cow, readFails: bool, writeFails: bool) returns (r: Outcome<StorageError>)
      modifies this`cows
      ensures r.Fail? <==> writeFails
      ensures writeFails ==> cows == old(cows)
      ensures !writeFails ==> cows == Some((if readFails then [] else old(Listed())) + [cow])
    {
      var list := GetCows(readFails);
      list := list + [cow];
      r := SaveCows(list, writeFails);
    }

    /**
     * `updateCow`: replaces the first cow with `u`'s id and writes the collection back. When the
     * read collection has no such cow, nothing is written and nothing is reported.
     */
    method UpdateCow(u: Cow, readFails: bool, writeFails: bool) returns (r: Outcome<StorageError>)
      modifies this`cows
      ensures var read := if readFails then [] else old(Listed());
        var found := exists j :: 0 <= j < |read| && read[j].id == u.id;
        && (r.Fail? <==> found && writeFails)
        && cows == if found && !writeFails then Some(ReplaceFirstById(read, u)) else old(cows)
    {
      var list := GetCows(readFails);
      var index := FirstIndex(list, IdIs(u.id));
      if index != -1 {
        list := list[index := u];
        r := SaveCows(list, writeFails);
      } else {
        r := Pass;
      }
    }

    /** `getCowByEarTag`: the first stored cow whose tag matches regardless of case; a failed read finds nothing. */
    method GetCowByEarTag(tag: string, readFails: bool) returns (r: Option<Cow>)
      ensures readFails ==> r.None?
      ensures r.None? <==> readFails || forall j :: 0 <= j < |Listed()| ==> ToLower(Listed()[j].earTag) != ToLower(tag)
      ensures !readFails ==> r == FindByEarTag(Listed(), tag)
    {
      var list := GetCows(readFails);
      assert !readFails ==> list == Listed();
      r := FindByEarTag(list, tag);
    }

    /** `getFilters`: the stored filters, or the defaults when the key is absent or the read fails. */
    method GetFilters(readFails: bool) returns (f: CowFilters)
      ensures readFails || filters.None? ==> f == DefaultFilters
      ensures !readFails && filters.Some? ==> f == filters.value
    {
      if readFails || filters.None? {
        f := DefaultFilters;
      } else {
        f := filters.value;
      }
    }

    /** `saveFilters`: overwrites the filters key; a failed write is logged and not rethrown. */
    method SaveFilters(f: CowFilters, writeFails: bool)
      modifies this`filters
      ensures filters == if writeFails then old(filters) else Some(f)
    {
      if !writeFails {
        filters := Some(f);
      }
    }

    /** `clearAll`: removes both keys; a failed removal leaves both and is rethrown. */
    method ClearAll(writeFails: bool) returns (r: Outcome<StorageError>)
      modifies this
      ensures r.Fail? <==> writeFails
      ensures writeFails ==> cows == old(cows) && filters == old(filters)
      ensures !writeFails ==> cows == None && filters == None
    {
      if writeFails {
        r := Fail(StorageError);
      } else {
        cows, filters := None, None;
        r := Pass;
      }
    }
  }

  /** Filters saved with a successful write are the filters read back. */
  method SaveThenGetFilters(store: CowStore, f: CowFilters) returns (g: CowFilters)
    modifies store
    ensures g == f
    ensures store.cows == old(store.cows)
  {
    store.SaveFilters(f, false);
    g := store.GetFilters(false);
  }

  /** After a successful `clearAll`, the collection reads as empty and the filters as the defaults. */
  method ClearThenGet(store: CowStore) returns (cows: seq<Cow>, f: CowFilters)
    modifies store
    ensures cows == [] && f == DefaultFilters
  {
    var r := store.ClearAll(false);
    cows := store.GetCows(false);
    f := store.GetFilters(false);
  }

  /** A cow added with a successful read and write is the last stored cow and is found by its tag in any case. */
  method AddThenFind(store: CowStore, cow: Cow, tag: string) returns (found: Option<Cow>)
    requires ToLower(tag) == ToLower(cow.earTag)
    requires forall j :: 0 <= j < |store.Listed()| ==> ToLower(store.Listed()[j].earTag) != ToLower(tag)
    modifies store
    ensures store.Listed() == old(store.Listed()) + [cow]
    ensures found == Some(cow)
  {
    var r := store.AddCow(cow, false, false);
    found := store.GetCowByEarTag(tag, false);
    assert store.Listed()[|store.Listed()| - 1] == cow;
  }
}
