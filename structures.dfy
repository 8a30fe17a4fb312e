/** The structure set a script run works on: structures keyed by a unique id,
    kept in the order the host lists them (`StructureSet.Structures`). */
module Structures {
  import opened Text
  import opened Geometry
  import opened Results

  /** An opaque ARGB colour. */
  type Color = int

  /** The colour the host gives a structure it has just added. */
  const NewColor: Color := 0

  /** The structure code of a structure the host has just added (none). */
  const NoCode: string := ""

  /** One structure: its DICOM type, its segment, its colour and its structure code. */
  datatype Structure = Structure(kind: string, voxels: Region, color: Color, code: string)

  /** A value snapshot of a structure set: the ids in listing order and the structures by id. */
  datatype Store = Store(names: seq<string>, table: map<string, Structure>)

  /** Ids are unique and the listing holds exactly the stored ids. */
  ghost predicate WellFormed(st: Store) {
    Distinct(st.names) && forall n :: n in st.table <==> n in st.names
  }

  /** The segment of `id`; an id that is not (or no longer) in the set reads as empty. */
  function Vox(st: Store, id: string): Region {
    if id in st.table then st.table[id].voxels else {}
  }

  /** `Structure.IsEmpty`. */
  predicate IsEmpty(st: Store, id: string) {
    Vox(st, id) == {}
  }

  /** `AddStructure(kind, id)` with the lookup of the existing structure when the id is taken:
      an existing structure is returned untouched, otherwise an empty one is appended. */
  function FindOrAdd(st: Store, kind: string, id: string): (r: Store)
    ensures WellFormed(st) ==> WellFormed(r)
    ensures id in r.table && r.table.Keys == st.table.Keys + {id}
    ensures forall n :: n in st.table ==> r.table[n] == st.table[n]
    ensures id !in st.table ==> r.table[id] == Structure(kind, {}, NewColor, NoCode)
    ensures id in st.table ==> r == st
  {
    if id in st.table then st
    else Store(st.names + [id], st.table[id := Structure(kind, {}, NewColor, NoCode)])
  }

  /** `RemoveStructure(id)`; removing an absent id changes nothing. */
  function Delete(st: Store, id: string): (r: Store)
    ensures WellFormed(st) ==> WellFormed(r)
    ensures r.table == st.table - {id}
  {
    var r := Store(Filter(st.names, n => n != id), st.table - {id});
    FilterDistinct(st.names, n => n != id);
    r
  }

  /** Removing a structure takes its one entry out of the listing and keeps the other ids in
      their order; an id that is not listed leaves the listing as it is. */
  lemma {:induction false} DeleteKeepsOrder(st: Store, id: string)
    ensures id !in st.names ==> Delete(st, id).names == st.names
    ensures Distinct(st.names) ==> forall k :: 0 <= k < |st.names| && st.names[k] == id ==>
      Delete(st, id).names == st.names[..k] + st.names[k + 1..]
  {
    var keep := n => n != id;
    if id !in st.names {
      FilterAbsent(st.names, id, keep);
    }
    forall k | Distinct(st.names) && 0 <= k < |st.names| && st.names[k] == id
      ensures Delete(st, id).names == st.names[..k] + st.names[k + 1..]
    {
      FilterDropsOne(st.names, id, keep, k);
    }
  }

  /** Assign the segment of an existing structure (`SegmentVolume = ...`). */
  function SetVox(st: Store, id: string, v: Region): (r: Store)
    requires id in st.table
    ensures WellFormed(st) ==> WellFormed(r)
    ensures r.names == st.names && r.table.Keys == st.table.Keys
    ensures Vox(r, id) == v && forall n :: n != id ==> Vox(r, n) == Vox(st, n)
    ensures forall n :: n != id && n in st.table ==> r.table[n] == st.table[n]
  {
    Store(st.names, st.table[id := st.table[id].(voxels := v)])
  }

  /** Assign the colour of an existing structure. */
  function SetColor(st: Store, id: string, c: Color): (r: Store)
    requires id in st.table
    ensures WellFormed(st) ==> WellFormed(r)
    ensures r.names == st.names && r.table.Keys == st.table.Keys
    ensures forall n :: Vox(r, n) == Vox(st, n)
    ensures forall n :: n != id && n in st.table ==> r.table[n] == st.table[n]
    ensures r.table[id].color == c && r.table[id].code == st.table[id].code
  {
    Store(st.names, st.table[id := st.table[id].(color := c)])
  }

  /** Assign the structure code of an existing structure. */
  function SetCode(st: Store, id: string, code: string): (r: Store)
    requires id in st.table
    ensures WellFormed(st) ==> WellFormed(r)
    ensures r.names == st.names && r.table.Keys == st.table.Keys
    ensures forall n :: Vox(r, n) == Vox(st, n)
    ensures forall n :: n != id && n in st.table ==> r.table[n] == st.table[n]
    ensures r.table[id].code == code && r.table[id].color == st.table[id].color
  {
    Store(st.names, st.table[id := st.table[id].(code := code)])
  }

  /** The ids of the set, in listing order, that satisfy `p` (`ss.Structures.Where(...)`). */
  function Where(st: Store, p: string -> bool): seq<string> {
    Filter(st.names, p)
  }

  /** The scratch structure every generator works in. */
  const TmpName := "tmp"

  /** Ids the script makes for itself start with `z_`. */
  predicate IsHelperName(n: string) {
    |n| >= 2 && n[..2] == "z_"
  }

  /** Every structure other than `tmp` and those whose id starts with `z_` (whether the script or
      the user made them) is in `b` exactly as in `a`. */
  ghost predicate KeepsUserStructures(a: Store, b: Store) {
    forall n :: n != TmpName && !IsHelperName(n) ==>
      (n in b.table <==> n in a.table) && (n in a.table ==> b.table[n] == a.table[n])
  }

  lemma {:induction false} KeepsTransitive(a: Store, b: Store, c: Store)
    requires KeepsUserStructures(a, b) && KeepsUserStructures(b, c)
    ensures KeepsUserStructures(a, c)
  {
  }

  /** How a generator ends: the structure set it leaves, whether it returned or threw,
      and the message boxes it showed, in order. */
  datatype Run = Run(st: Store, outcome: Outcome, messages: seq<string>)

  /** The structure set itself, updated in place by the script. */
  class StructureSet {
    var names: seq<string>
    var table: map<string, Structure>

    /** The abstract value of the set. */
    function Current(): Store
      reads this
    {
      Store(names, table)
    }

    ghost predicate Valid()
      reads this
    {
      WellFormed(Current())
    }

    constructor (st: Store)
      requires WellFormed(st)
      ensures Valid() && Current() == st
    {
      names, table := st.names, st.table;
    }

    /** `AddStructure(kind, id)`, falling back to the existing structure of that id. */
    method AddStructure(kind: string, id: string) returns (created: bool)
      requires Valid()
      modifies this
      ensures Valid()
      ensures Current() == FindOrAdd(old(Current()), kind, id)
      ensures created <==> id !in old(table)
    {
      created := id !in table;
      if created {
        names, table := names + [id], table[id := Structure(kind, {}, NewColor, NoCode)];
      }
    }

    /** `RemoveStructure(id)`. */
    method RemoveStructure(id: string)
      requires Valid()
      modifies this
      ensures Valid()
      ensures Current() == Delete(old(Current()), id)
    {
      var st := Delete(Current(), id);
      names, table := st.names, st.table;
    }

    /** `SegmentVolume = v`. */
    method SetSegment(id: string, v: Region)
      requires Valid() && id in table
      modifies this
      ensures Valid()
      ensures Current() == SetVox(old(Current()), id, v)
    {
      table := table[id := table[id].(voxels := v)];
    }

    /** `Color = c`. */
    method SetStructureColor(id: string, c: Color)
      requires Valid() && id in table
      modifies this
      ensures Valid()
      ensures Current() == SetColor(old(Current()), id, c)
    {
      table := table[id := table[id].(color := c)];
    }

    /** `StructureCode = code`. */
    method SetStructureCode(id: string, code: string)
      requires Valid() && id in table
      modifies this
      ensures Valid()
      ensures Current() == SetCode(old(Current()), id, code)
    {
      table := table[id := table[id].(code := code)];
    }
  }
}
