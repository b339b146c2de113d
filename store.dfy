/**
 * The IndexedDB store of src/db.ts as the program uses it: the `images` table
 * keyed by id, and the `sources` table in the order `toArray` returns it.
 * Each method is one Dexie call: `get`, `put`, `add`, `update`, `delete`,
 * `bulkAdd`, `bulkDelete`, and the `where(...).equals(...)` lookups.
 */
module Store {
  import opened Wrappers
  import opened Model

  /** The record after `update(id, changes)`: the changes merged in, the primary key kept. */
  function Updated(r: ImageRecord, changes: Patch): (u: ImageRecord)
    ensures u.id == r.id
  {
    Apply(r, changes).(id := r.id)
  }

  /** Every property but the key reads as the change when it names one of the right type, as before otherwise. */
  lemma UpdatedGet(r: ImageRecord, changes: Patch, f: Field)
    requires f != Id
    ensures Get(Updated(r, changes), f) == if f in changes && Fits(f, changes[f]) then changes[f] else Get(r, f)
  {
    ApplyGet(r, changes, f);
  }

  /** `bulkAdd(rs)` outside a transaction: each record whose key is free is added, the others fail. */
  function BulkAdded(m: map<string, ImageRecord>, rs: seq<ImageRecord>): map<string, ImageRecord>
    decreases |rs|
  {
    if rs == [] then m
    else
      var last := rs[|rs| - 1];
      var before := BulkAdded(m, rs[..|rs| - 1]);
      if last.id in before then before else before[last.id := last]
  }

  /** How many records of `bulkAdd(rs)` fail with a key constraint error. */
  function BulkFailures(m: map<string, ImageRecord>, rs: seq<ImageRecord>): nat
    decreases |rs|
  {
    if rs == [] then 0
    else
      var last := rs[|rs| - 1];
      BulkFailures(m, rs[..|rs| - 1]) + (if last.id in BulkAdded(m, rs[..|rs| - 1]) then 1 else 0)
  }

  function Ids(rs: seq<ImageRecord>): set<string>
  {
    set i | 0 <= i < |rs| :: rs[i].id
  }

  /** `bulkAdd` adds the keys of the batch and never overwrites a stored record. */
  lemma {:induction false} BulkAddedKeeps(m: map<string, ImageRecord>, rs: seq<ImageRecord>)
    ensures BulkAdded(m, rs).Keys == m.Keys + Ids(rs)
    ensures forall k :: k in m ==> BulkAdded(m, rs)[k] == m[k]
    decreases |rs|
  {
    if rs != [] {
      var init := rs[..|rs| - 1];
      BulkAddedKeeps(m, init);
      assert Ids(rs) == Ids(init) + {rs[|rs| - 1].id} by {
        forall k | k in Ids(rs) ensures k in Ids(init) + {rs[|rs| - 1].id} {
          var i :| 0 <= i < |rs| && rs[i].id == k;
          if i < |rs| - 1 { assert init[i] == rs[i]; }
        }
        forall k | k in Ids(init) ensures k in Ids(rs) {
          var i :| 0 <= i < |init| && init[i].id == k;
          assert rs[i] == init[i];
        }
      }
    }
  }

  /** Every added record is stored under its own id, and a batch of fresh distinct ids adds every record. */
  lemma {:induction false} BulkAddedFresh(m: map<string, ImageRecord>, rs: seq<ImageRecord>)
    requires forall i :: 0 <= i < |rs| ==> rs[i].id !in m
    requires forall i, j :: 0 <= i < j < |rs| ==> rs[i].id != rs[j].id
    ensures forall i :: 0 <= i < |rs| ==> rs[i].id in BulkAdded(m, rs) && BulkAdded(m, rs)[rs[i].id] == rs[i]
    ensures BulkFailures(m, rs) == 0
    decreases |rs|
  {
    if rs != [] {
      var init := rs[..|rs| - 1];
      BulkAddedFresh(m, init);
      BulkAddedKeeps(m, init);
      var last := rs[|rs| - 1];
      forall i | 0 <= i < |init| ensures init[i].id != last.id {
        assert init[i] == rs[i];
      }
      forall i | 0 <= i < |rs| ensures rs[i].id in BulkAdded(m, rs) && BulkAdded(m, rs)[rs[i].id] == rs[i] {
        if i < |rs| - 1 { assert init[i] == rs[i]; }
      }
    }
  }

  class Db {
    var images: map<string, ImageRecord>
    var sources: seq<LibrarySource>

    constructor ()
      ensures images == map[] && sources == []
    {
      images := map[];
      sources := [];
    }

    /** `images.get(id)` */
    function Get(id: string): (r: Option<ImageRecord>)
      reads this`images
      ensures r.Some? <==> id in images
      ensures r.Some? ==> r.value == images[id]
    {
      if id in images then Some(images[id]) else None
    }

    /** `images.put(r)`: insert or replace. */
    method Put(r: ImageRecord)
      modifies this`images
      ensures images == old(images)[r.id := r]
    {
      images := images[r.id := r];
    }

    /** `images.add(r)`: a key already present is a constraint error and nothing is written. */
    method Add(r: ImageRecord) returns (ok: bool)
      modifies this`images
      ensures ok <==> r.id !in old(images)
      ensures images == if ok then old(images)[r.id := r] else old(images)
    {
      if r.id in images {
        return false;
      }
      images := images[r.id := r];
      ok := true;
    }

    /** `images.update(id, changes)`: 1 and the merged record when the key exists, 0 and no change otherwise. */
    method Update(id: string, changes: Patch) returns (count: nat)
      modifies this`images
      ensures count == if id in old(images) then 1 else 0
      ensures images == if id in old(images) then old(images)[id := Updated(old(images)[id], changes)] else old(images)
    {
      if id !in images {
        return 0;
      }
      images := images[id := Updated(images[id], changes)];
      count := 1;
    }

    /** `images.delete(id)` */
    method Delete(id: string)
      modifies this`images
      ensures images == old(images) - {id}
    {
      images := images - {id};
    }

    /** `images.bulkDelete(ids)` */
    method BulkDelete(ids: seq<string>)
      modifies this`images
      ensures images == old(images) - (set i | 0 <= i < |ids| :: ids[i])
    {
      images := images - (set i | 0 <= i < |ids| :: ids[i]);
    }

    /** `images.bulkAdd(rs)`: the records are added one after the other; the result is how many failed. */
    method BulkAdd(rs: seq<ImageRecord>) returns (failures: nat)
      modifies this`images
      ensures images == BulkAdded(old(images), rs)
      ensures failures == BulkFailures(old(images), rs)
    {
      failures := 0;
      var i := 0;
      while i < |rs|
        invariant 0 <= i <= |rs|
        invariant images == BulkAdded(old(images), rs[..i])
        invariant failures == BulkFailures(old(images), rs[..i])
      {
        assert rs[..i + 1][..i] == rs[..i];
        if rs[i].id in images {
          failures := failures + 1;
        } else {
          images := images[rs[i].id := rs[i]];
        }
        i := i + 1;
      }
      assert rs[..|rs|] == rs;
    }

    /** `images.where('src').equals(src).first()`: the key of a record with that src, if there is one. */
    method FirstBySrc(src: string) returns (key: Option<string>)
      ensures key.Some? ==> key.value in images && images[key.value].src == Some(src)
      ensures key.None? <==> forall id :: id in images ==> images[id].src != Some(src)
    {
      if exists id :: id in images && images[id].src == Some(src) {
        var id :| id in images && images[id].src == Some(src);
        key := Some(id);
      } else {
        key := None;
      }
    }

    /** `images.where('hash').equals(h).first()` */
    method FirstByHash(h: string) returns (key: Option<string>)
      ensures key.Some? ==> key.value in images && images[key.value].hash == Some(h)
      ensures key.None? <==> forall id :: id in images ==> images[id].hash != Some(h)
    {
      if exists id :: id in images && images[id].hash == Some(h) {
        var id :| id in images && images[id].hash == Some(h);
        key := Some(id);
      } else {
        key := None;
      }
    }

    /** The keys of `images.where('sourceId').equals(sid)` */
    function WithSource(sid: string): (ids: set<string>)
      reads this`images
      ensures forall id :: id in ids <==> id in images && images[id].sourceId == sid
    {
      set id | id in images && images[id].sourceId == sid
    }

    /** `images.where('sourceId').equals(sid).delete()` */
    method DeleteWhereSource(sid: string)
      modifies this`images
      ensures images == old(images) - old(WithSource(sid))
    {
      images := images - WithSource(sid);
    }

    /** `images.where('sourceId').equals(sid).modify({ sourceId: to })` */
    method ReassignWhereSource(sid: string, to: string)
      modifies this`images
      ensures images == Reassigned(old(images), sid, to)
    {
      images := Reassigned(images, sid, to);
    }

    predicate HasSource(id: string)
      reads this`sources
    {
      exists i :: 0 <= i < |sources| && sources[i].id == id
    }

    /** `sources.add(s)`: a key already present is a constraint error. */
    method SourcesAdd(s: LibrarySource) returns (ok: bool)
      modifies this`sources
      ensures ok <==> !old(HasSource(s.id))
      ensures sources == if ok then old(sources) + [s] else old(sources)
    {
      if HasSource(s.id) {
        return false;
      }
      sources := sources + [s];
      ok := true;
    }

    /** `sources.put(s)`: replaces the source with that id where it stands, or appends it. */
    method SourcesPut(s: LibrarySource)
      modifies this`sources
      ensures old(HasSource(s.id)) ==>
        |sources| == |old(sources)| &&
        forall i :: 0 <= i < |sources| ==> sources[i] == if old(sources)[i].id == s.id then s else old(sources)[i]
      ensures !old(HasSource(s.id)) ==> sources == old(sources) + [s]
    {
      if HasSource(s.id) {
        sources := ReplaceSource(sources, s.id, (_: LibrarySource) => s);
      } else {
        sources := sources + [s];
      }
    }

    /** `sources.update(id, changes)` */
    method SourcesUpdate(id: string, changes: SourceChanges)
      modifies this`sources
      ensures |sources| == |old(sources)|
      ensures forall i :: 0 <= i < |sources| ==>
        sources[i] == if old(sources)[i].id == id then MergeSource(old(sources)[i], changes) else old(sources)[i]
    {
      sources := ReplaceSource(sources, id, (t: LibrarySource) => MergeSource(t, changes));
    }

    /** `sources.delete(id)` */
    method SourcesDelete(id: string)
      modifies this`sources
      ensures sources == WithoutSource(old(sources), id)
    {
      sources := WithoutSource(sources, id);
    }
  }

  /**
   * The table after every record of source `sid` was moved to source `to`: the
   * same keys, none left on `sid`, and nothing else about any record changed.
   */
  function Reassigned(m: map<string, ImageRecord>, sid: string, to: string): (r: map<string, ImageRecord>)
    ensures r.Keys == m.Keys
    ensures sid != to ==> forall id :: id in r ==> r[id].sourceId != sid
    ensures forall id :: id in m && m[id].sourceId != sid ==> r[id] == m[id]
    ensures forall id :: id in m ==> r[id].(sourceId := m[id].sourceId) == m[id]
  {
    map id | id in m :: if m[id].sourceId == sid then m[id].(sourceId := to) else m[id]
  }

  /** `Partial<LibrarySource>` as far as the program writes it. */
  datatype SourceChanges = SourceChanges(name: Option<string>, path: Option<string>, count: Option<int>)

  /** `{...s, ...changes}` */
  function MergeSource(s: LibrarySource, c: SourceChanges): LibrarySource
  {
    s.(name := c.name.GetOr(s.name),
       path := if c.path.Some? then c.path else s.path,
       count := c.count.GetOr(s.count))
  }

  /** `list.map(s => s.id === id ? f(s) : s)` */
  function ReplaceSource(ss: seq<LibrarySource>, id: string, f: LibrarySource -> LibrarySource): (r: seq<LibrarySource>)
    ensures |r| == |ss|
    ensures forall i :: 0 <= i < |ss| ==> r[i] == if ss[i].id == id then f(ss[i]) else ss[i]
  {
    seq(|ss|, i requires 0 <= i < |ss| => if ss[i].id == id then f(ss[i]) else ss[i])
  }

  /** `list.filter(s => s.id !== id)` */
  function WithoutSource(ss: seq<LibrarySource>, id: string): (r: seq<LibrarySource>)
    ensures forall i :: 0 <= i < |r| ==> r[i].id != id
    ensures forall s :: s in r <==> s in ss && s.id != id
    ensures |r| <= |ss|
  {
    if ss == [] then []
    else if ss[0].id == id then WithoutSource(ss[1..], id)
    else [ss[0]] + WithoutSource(ss[1..], id)
  }
}
