/** `write_feff`: the FEFF input file written for a structure, an absorbing atom and an
    option map. The file is modelled by its sections rather than its text. */
module FeffInput {
  import opened Results
  import opened AtomicStructure

  /** A POTENTIALS row: `index atomic_number`. */
  datatype PotentialRow = PotentialRow(index: int, number: int)

  /** An ATOMS row: `x y z potential_index`. */
  datatype AtomRow = AtomRow(position: Position, potential: int)

  /** The sections after the TITLE line, in the order they are written: one `key value` line
      per option, the POTENTIALS rows and the ATOMS rows. */
  datatype Input = Input(options: seq<(string, string)>, potentials: seq<PotentialRow>, atoms: seq<AtomRow>)

  /** `len([a for a in atoms if a.number == z])`: at most the number of atoms, and all of
      them when every atom has that atomic number. */
  function Count(atoms: seq<Atom>, z: int): (c: nat)
    ensures c <= |atoms|
    ensures (forall j :: 0 <= j < |atoms| ==> atoms[j].number == z) ==> c == |atoms|
  {
    if atoms == [] then 0
    else (if atoms[0].number == z then 1 else 0) + Count(atoms[1..], z)
  }

  /** `set(atoms.get_atomic_numbers())`: every atom's atomic number, and only numbers some
      atom has. */
  function Numbers(atoms: seq<Atom>): (r: set<int>)
    ensures forall j :: 0 <= j < |atoms| ==> atoms[j].number in r
    ensures forall z :: z in r ==> Count(atoms, z) >= 1
  {
    var r := set j | 0 <= j < |atoms| :: atoms[j].number;
    assert forall z :: z in r ==> Count(atoms, z) >= 1 by {
      forall z | z in r
        ensures Count(atoms, z) >= 1
      {
        var j :| 0 <= j < |atoms| && atoms[j].number == z;
        CountAtLeastOne(atoms, j);
      }
    }
    r
  }

  predicate Distinct(zs: seq<int>) {
    forall i, j :: 0 <= i < j < |zs| ==> zs[i] != zs[j]
  }

  /** `zs` lists every atomic number present exactly once, in some order: the list the
      source gets from a Python `set`, whose iteration order is unspecified. */
  ghost predicate Enumerates(zs: seq<int>, atoms: seq<Atom>)
    ensures Enumerates(zs, atoms) ==>
      |zs| == |Numbers(atoms)| && forall j :: 0 <= j < |atoms| ==> atoms[j].number in zs
  {
    var e := Distinct(zs) && forall z :: z in zs <==> z in Numbers(atoms);
    assert e ==> |zs| == |Numbers(atoms)| by {
      if e {
        DistinctCard(zs);
        assert (set z | z in zs) == Numbers(atoms);
      }
    }
    e
  }

  /** The source's test for leaving species `z` out of POTENTIALS: it is the absorber's
      species and the absorber is its only atom. A skipped species is one no other atom has. */
  predicate Skipped(atoms: seq<Atom>, absorber: nat, z: int)
    requires absorber < |atoms|
    ensures Skipped(atoms, absorber, z) ==>
      z == atoms[absorber].number && forall j :: 0 <= j < |atoms| && j != absorber ==> atoms[j].number != z
  {
    var skip := z == atoms[absorber].number && Count(atoms, z) - 1 == 0;
    assert skip ==> forall j :: 0 <= j < |atoms| && j != absorber ==> atoms[j].number != z by {
      if skip {
        forall j | 0 <= j < |atoms| && j != absorber
          ensures atoms[j].number != z
        {
          if atoms[j].number == z {
            if j < absorber { CountAtLeastTwo(atoms, j, absorber); } else { CountAtLeastTwo(atoms, absorber, j); }
          }
        }
      }
    }
    skip
  }

  /** What that test means: some atom other than the absorber has atomic number `z`. */
  ghost predicate HasOwnPotential(atoms: seq<Atom>, absorber: nat, z: int) {
    exists j :: 0 <= j < |atoms| && j != absorber && atoms[j].number == z
  }

  /** The species `write_feff` gives a POTENTIALS row, in the order it meets them in `zs`.
      From distinct species, every one is listed except the absorber's when the absorber is
      its only atom. */
  function Listed(atoms: seq<Atom>, absorber: nat, zs: seq<int>): (r: seq<int>)
    requires absorber < |atoms|
    ensures |r| <= |zs|
    ensures Distinct(zs) ==>
      |r| == |zs| - (if atoms[absorber].number in zs && Count(atoms, atoms[absorber].number) == 1 then 1 else 0)
  {
    if zs == [] then []
    else
      var last := zs[|zs| - 1];
      var init := Listed(atoms, absorber, zs[..|zs| - 1]);
      if Skipped(atoms, absorber, last) then init else init + [last]
  }

  /** The listing holds exactly the species of `zs` the skip test lets through. */
  lemma {:induction false} ListedMembers(atoms: seq<Atom>, absorber: nat, zs: seq<int>)
    requires absorber < |atoms|
    ensures forall z :: z in Listed(atoms, absorber, zs) <==> z in zs && !Skipped(atoms, absorber, z)
  {
    if zs != [] {
      var init := zs[..|zs| - 1];
      ListedMembers(atoms, absorber, init);
      assert zs == init + [zs[|zs| - 1]];
    }
  }

  /** A duplicate-free listing of species gives a duplicate-free run of POTENTIALS rows. */
  lemma {:induction false} ListedDistinct(atoms: seq<Atom>, absorber: nat, zs: seq<int>)
    requires absorber < |atoms| && Distinct(zs)
    ensures Distinct(Listed(atoms, absorber, zs))
  {
    if zs != [] {
      var init := zs[..|zs| - 1];
      var last := zs[|zs| - 1];
      ListedDistinct(atoms, absorber, init);
      ListedMembers(atoms, absorber, init);
      assert last !in init;
    }
  }

  /** The atomic numbers on a run of POTENTIALS rows. */
  function RowNumbers(rows: seq<PotentialRow>): (r: seq<int>)
    ensures |r| == |rows| && forall k :: 0 <= k < |rows| ==> r[k] == rows[k].number
  {
    if rows == [] then [] else [rows[0].number] + RowNumbers(rows[1..])
  }

  /** Row `k` carries potential index `k`: no gaps and no repeats. */
  predicate IndexedFromZero(pots: seq<PotentialRow>) {
    forall k :: 0 <= k < |pots| ==> pots[k].index == k
  }

  /** The first POTENTIALS row is `0 absorber_z`. */
  predicate AbsorberRowFirst(pots: seq<PotentialRow>, atoms: seq<Atom>, absorber: nat)
    requires absorber < |atoms|
  {
    |pots| >= 1 && pots[0] == PotentialRow(0, atoms[absorber].number)
  }

  /** One ATOMS row per atom, in order, with the atom's position; the absorber's potential
      is 0 and every other atom's is the index of the row of its own species. */
  predicate RowsMatchAtoms(rows: seq<AtomRow>, pots: seq<PotentialRow>, atoms: seq<Atom>, absorber: nat)
    requires absorber < |atoms|
  {
    |rows| == |atoms| &&
    (forall j :: 0 <= j < |atoms| ==> rows[j].position == atoms[j].position) &&
    rows[absorber].potential == 0 &&
    forall j :: 0 <= j < |atoms| && j != absorber ==>
      1 <= rows[j].potential < |pots| && pots[rows[j].potential].number == atoms[j].number
  }

  /** `write_feff` as the source runs it. `uniqueZ` is the iteration order of the Python set;
      the options are written in the order given. */
  method WriteFeff(atoms: seq<Atom>, absorber: nat, options: seq<(string, string)>, uniqueZ: seq<int>)
    returns (inp: Input)
    requires absorber < |atoms|
    requires Enumerates(uniqueZ, atoms)
    ensures inp.options == options
    ensures AbsorberRowFirst(inp.potentials, atoms, absorber)
    ensures IndexedFromZero(inp.potentials)
    ensures RowNumbers(inp.potentials[1..]) == Listed(atoms, absorber, uniqueZ)
    ensures Distinct(RowNumbers(inp.potentials[1..]))
    ensures forall k :: 1 <= k < |inp.potentials| ==> HasOwnPotential(atoms, absorber, inp.potentials[k].number)
    ensures RowsMatchAtoms(inp.atoms, inp.potentials, atoms, absorber)
  {
    var pots, potMap := NumberPotentials(atoms, absorber, uniqueZ);
    forall j | 0 <= j < |atoms| && j != absorber
      ensures atoms[j].number in potMap
    {
      OwnSpeciesListed(atoms, absorber, uniqueZ, j);
    }
    var rows := AtomRows(atoms, absorber, pots, potMap);
    inp := Input(options, pots, rows);
    ListedDistinct(atoms, absorber, uniqueZ);
    OwnPotentialRows(atoms, absorber, uniqueZ);
    forall k | 1 <= k < |pots|
      ensures HasOwnPotential(atoms, absorber, pots[k].number)
    {
      assert pots[k].number == RowNumbers(pots[1..])[k - 1];
    }
  }

  /** The POTENTIALS loop of `write_feff`: row 0 for the absorber, then one row per species in
      `uniqueZ` that is not skipped, numbered by the counter `i`, and `pot_map` from each
      listed species to its row. */
  method NumberPotentials(atoms: seq<Atom>, absorber: nat, uniqueZ: seq<int>)
    returns (pots: seq<PotentialRow>, potMap: map<int, int>)
    requires absorber < |atoms|
    ensures AbsorberRowFirst(pots, atoms, absorber)
    ensures IndexedFromZero(pots)
    ensures RowNumbers(pots[1..]) == Listed(atoms, absorber, uniqueZ)
    ensures forall z :: z in potMap <==> z in Listed(atoms, absorber, uniqueZ)
    ensures forall z :: z in potMap ==> 1 <= potMap[z] < |pots| && pots[potMap[z]].number == z
  {
    var absorberZ := atoms[absorber].number;
    pots := [PotentialRow(0, absorberZ)];
    potMap := map[];
    var i := 1;
    for t := 0 to |uniqueZ|
      invariant |pots| == i && pots[0] == PotentialRow(0, absorberZ)
      invariant IndexedFromZero(pots)
      invariant RowNumbers(pots[1..]) == Listed(atoms, absorber, uniqueZ[..t])
      invariant MapMatchesRows(pots, potMap)
    {
      var z := uniqueZ[t];
      ListedStep(atoms, absorber, uniqueZ, t);
      var nz: int := Count(atoms, z);
      if z == absorberZ && nz - 1 == 0 {
        continue;
      }
      AppendPotential(pots, potMap, z);
      pots := pots + [PotentialRow(i, z)];
      potMap := potMap[z := i];
      i := i + 1;
    }
    assert uniqueZ[..|uniqueZ|] == uniqueZ;
  }

  /** `pot_map` sends each species with a row after the first to the index of that row. */
  ghost predicate MapMatchesRows(pots: seq<PotentialRow>, potMap: map<int, int>) {
    |pots| >= 1 && (forall z :: z in potMap <==> z in RowNumbers(pots[1..])) &&
    forall z :: z in potMap ==> 1 <= potMap[z] < |pots| && pots[potMap[z]].number == z
  }

  /** Writing the next POTENTIALS row and recording it in `pot_map` keeps the rows numbered
      and the map in step with them. */
  lemma AppendPotential(pots: seq<PotentialRow>, potMap: map<int, int>, z: int)
    requires |pots| >= 1 && IndexedFromZero(pots) && MapMatchesRows(pots, potMap)
    ensures IndexedFromZero(pots + [PotentialRow(|pots|, z)])
    ensures RowNumbers((pots + [PotentialRow(|pots|, z)])[1..]) == RowNumbers(pots[1..]) + [z]
    ensures MapMatchesRows(pots + [PotentialRow(|pots|, z)], potMap[z := |pots|])
  {
    var row := PotentialRow(|pots|, z);
    assert pots[1..] + [row] == (pots + [row])[1..];
    RowNumbersSnoc(pots[1..], row);
  }

  /** Extending the prefix of `zs` by one species extends the listing by it, unless it is
      skipped. */
  lemma ListedStep(atoms: seq<Atom>, absorber: nat, zs: seq<int>, t: nat)
    requires absorber < |atoms| && t < |zs|
    ensures Listed(atoms, absorber, zs[..t + 1]) ==
      if Skipped(atoms, absorber, zs[t]) then Listed(atoms, absorber, zs[..t])
      else Listed(atoms, absorber, zs[..t]) + [zs[t]]
  {
    assert zs[..t + 1][..t] == zs[..t];
  }

  /** The ATOMS loop of `write_feff`: each atom's position with potential 0 for the absorber
      and `pot_map[atom.number]` for the others. */
  method AtomRows(atoms: seq<Atom>, absorber: nat, pots: seq<PotentialRow>, potMap: map<int, int>)
    returns (rows: seq<AtomRow>)
    requires absorber < |atoms|
    requires forall j :: 0 <= j < |atoms| && j != absorber ==> atoms[j].number in potMap
    requires forall z :: z in potMap ==> 1 <= potMap[z] < |pots| && pots[potMap[z]].number == z
    ensures RowsMatchAtoms(rows, pots, atoms, absorber)
  {
    rows := [];
    for j := 0 to |atoms|
      invariant |rows| == j
      invariant forall q :: 0 <= q < j ==> rows[q].position == atoms[q].position
      invariant absorber < j ==> rows[absorber].potential == 0
      invariant forall q :: 0 <= q < j && q != absorber ==>
        1 <= rows[q].potential < |pots| && pots[rows[q].potential].number == atoms[q].number
    {
      var pot;
      if j == absorber {
        pot := 0;
      } else {
        pot := potMap[atoms[j].number];
      }
      rows := rows + [AtomRow(atoms[j].position, pot)];
    }
  }

  lemma RowNumbersSnoc(rows: seq<PotentialRow>, row: PotentialRow)
    ensures RowNumbers(rows + [row]) == RowNumbers(rows) + [row.number]
  {
  }

  // ---------------------------------------------------------------------------------------
  // Facts about the potential map.

  lemma {:induction false} CountAtLeastOne(atoms: seq<Atom>, i: nat)
    requires i < |atoms|
    ensures Count(atoms, atoms[i].number) >= 1
  {
    if i > 0 {
      CountAtLeastOne(atoms[1..], i - 1);
    }
  }

  lemma {:induction false} CountAtLeastTwo(atoms: seq<Atom>, i: nat, j: nat)
    requires i < j < |atoms| && atoms[i].number == atoms[j].number
    ensures Count(atoms, atoms[i].number) >= 2
  {
    if i == 0 {
      CountAtLeastOne(atoms[1..], j - 1);
    } else {
      CountAtLeastTwo(atoms[1..], i - 1, j - 1);
    }
  }

  lemma {:induction false} CountZero(atoms: seq<Atom>, z: int)
    requires forall j :: 0 <= j < |atoms| ==> atoms[j].number != z
    ensures Count(atoms, z) == 0
  {
    if atoms != [] {
      CountZero(atoms[1..], z);
    }
  }

  /** A species other than the absorber's, or the absorber's when it has two or more atoms:
      the source's skip test fails exactly for the species some non-absorber atom has. */
  lemma SkippedMeansNoOtherAtom(atoms: seq<Atom>, absorber: nat, z: int)
    requires absorber < |atoms| && z in Numbers(atoms)
    ensures !Skipped(atoms, absorber, z) <==> HasOwnPotential(atoms, absorber, z)
  {
    var j :| 0 <= j < |atoms| && atoms[j].number == z;
    if HasOwnPotential(atoms, absorber, z) && z == atoms[absorber].number {
      var q :| 0 <= q < |atoms| && q != absorber && atoms[q].number == z;
      if q < absorber { CountAtLeastTwo(atoms, q, absorber); } else { CountAtLeastTwo(atoms, absorber, q); }
    }
    if !HasOwnPotential(atoms, absorber, z) {
      assert j == absorber;
      var others := atoms[..absorber] + atoms[absorber + 1..];
      assert forall k :: 0 <= k < |others| ==> others[k].number != z by {
        forall k | 0 <= k < |others| ensures others[k].number != z {
          if k < absorber { assert others[k] == atoms[k]; } else { assert others[k] == atoms[k + 1]; }
        }
      }
      CountZero(others, z);
      CountWithout(atoms, absorber, z);
    }
  }

  /** Removing one atom of species `z` lowers its count by one. */
  lemma {:induction false} CountWithout(atoms: seq<Atom>, i: nat, z: int)
    requires i < |atoms| && atoms[i].number == z
    ensures Count(atoms, z) == 1 + Count(atoms[..i] + atoms[i + 1..], z)
  {
    if i > 0 {
      CountWithout(atoms[1..], i - 1, z);
      assert atoms[..i] + atoms[i + 1..] == [atoms[0]] + (atoms[1..][..i - 1] + atoms[1..][i..]);
    } else {
      assert atoms[..i] + atoms[i + 1..] == atoms[1..];
    }
  }

  /** Every atom other than the absorber finds its species in the potential map, so the
      source's `pot_map[atom.number]` never raises KeyError. */
  lemma OwnSpeciesListed(atoms: seq<Atom>, absorber: nat, zs: seq<int>, j: nat)
    requires absorber < |atoms| && Enumerates(zs, atoms)
    requires j < |atoms| && j != absorber
    ensures atoms[j].number in Listed(atoms, absorber, zs)
  {
    var z := atoms[j].number;
    assert z in Numbers(atoms);
    SkippedMeansNoOtherAtom(atoms, absorber, z);
    ListedMembers(atoms, absorber, zs);
  }

  /** Every POTENTIALS row after the first belongs to a species some non-absorber atom has. */
  lemma OwnPotentialRows(atoms: seq<Atom>, absorber: nat, zs: seq<int>)
    requires absorber < |atoms| && Enumerates(zs, atoms)
    ensures forall z :: z in Listed(atoms, absorber, zs) <==> HasOwnPotential(atoms, absorber, z)
  {
    ListedMembers(atoms, absorber, zs);
    forall z | z in Listed(atoms, absorber, zs) || HasOwnPotential(atoms, absorber, z)
      ensures z in Listed(atoms, absorber, zs) <==> HasOwnPotential(atoms, absorber, z)
    {
      if HasOwnPotential(atoms, absorber, z) {
        var j :| 0 <= j < |atoms| && j != absorber && atoms[j].number == z;
        assert z in Numbers(atoms);
      }
      SkippedMeansNoOtherAtom(atoms, absorber, z);
    }
  }

  // ---------------------------------------------------------------------------------------
  // Reading the written file back.

  /** The atomic number FEFF associates with potential index `p`: the number on the first
      POTENTIALS row carrying that index. */
  function PotentialNumber(pots: seq<PotentialRow>, p: int): (r: Option<int>)
    ensures r.Some? <==> exists k :: 0 <= k < |pots| && pots[k].index == p
  {
    if pots == [] then None
    else if pots[0].index == p then Some(pots[0].number)
    else
      var r := PotentialNumber(pots[1..], p);
      assert forall k :: 1 <= k < |pots| ==> pots[k] == pots[1..][k - 1];
      r
  }

  /** The species and position of every ATOMS row, or None when a row names a potential
      index that has no POTENTIALS row. */
  function ReadRows(pots: seq<PotentialRow>, rows: seq<AtomRow>): Option<seq<(int, Position)>> {
    if rows == [] then Some([])
    else match (PotentialNumber(pots, rows[0].potential), ReadRows(pots, rows[1..]))
      case (Some(z), Some(rest)) => Some([(z, rows[0].position)] + rest)
      case _ => None
  }

  /** The structure a FEFF input describes. */
  function ReadAtoms(inp: Input): Option<seq<(int, Position)>> {
    ReadRows(inp.potentials, inp.atoms)
  }

  /** The species and position of every atom of a structure. */
  function Species(atoms: seq<Atom>): (r: seq<(int, Position)>)
    ensures |r| == |atoms|
    ensures forall j :: 0 <= j < |atoms| ==> r[j] == (atoms[j].number, atoms[j].position)
  {
    seq(|atoms|, j requires 0 <= j < |atoms| => (atoms[j].number, atoms[j].position))
  }

  predicate IndexedFrom(pots: seq<PotentialRow>, base: int) {
    forall k :: 0 <= k < |pots| ==> pots[k].index == base + k
  }

  lemma {:induction false} IndexedLookup(pots: seq<PotentialRow>, base: int, p: int)
    requires IndexedFrom(pots, base) && base <= p < base + |pots|
    ensures PotentialNumber(pots, p) == Some(pots[p - base].number)
  {
    if p != base {
      assert IndexedFrom(pots[1..], base + 1);
      IndexedLookup(pots[1..], base + 1, p);
    }
  }

  lemma {:induction false} ReadRowsAll(pots: seq<PotentialRow>, rows: seq<AtomRow>, out: seq<(int, Position)>)
    requires |out| == |rows|
    requires forall j :: 0 <= j < |rows| ==>
      PotentialNumber(pots, rows[j].potential) == Some(out[j].0) && rows[j].position == out[j].1
    ensures ReadRows(pots, rows) == Some(out)
  {
    if rows != [] {
      ReadRowsAll(pots, rows[1..], out[1..]);
      assert out == [(out[0].0, out[0].1)] + out[1..];
    }
  }

  /** Reading the file `write_feff` produces gives back every atom's species and position:
      the potential indices are a faithful encoding of the atomic numbers. */
  lemma WrittenAtomsReadBack(inp: Input, atoms: seq<Atom>, absorber: nat)
    requires absorber < |atoms|
    requires AbsorberRowFirst(inp.potentials, atoms, absorber)
    requires IndexedFromZero(inp.potentials)
    requires RowsMatchAtoms(inp.atoms, inp.potentials, atoms, absorber)
    ensures ReadAtoms(inp) == Some(Species(atoms))
  {
    var pots := inp.potentials;
    assert IndexedFrom(pots, 0);
    forall j | 0 <= j < |atoms|
      ensures PotentialNumber(pots, inp.atoms[j].potential) == Some(atoms[j].number)
    {
      IndexedLookup(pots, 0, inp.atoms[j].potential);
    }
    ReadRowsAll(pots, inp.atoms, Species(atoms));
  }

  // ---------------------------------------------------------------------------------------
  // What does not depend on the set's iteration order.

  /** The absorber's species gets a POTENTIALS row of its own exactly when the absorber is
      not its only atom. */
  lemma AbsorberSpeciesListed(atoms: seq<Atom>, absorber: nat, zs: seq<int>)
    requires absorber < |atoms| && Enumerates(zs, atoms)
    ensures atoms[absorber].number in Listed(atoms, absorber, zs) <==> Count(atoms, atoms[absorber].number) >= 2
  {
    assert atoms[absorber].number in Numbers(atoms);
    CountAtLeastOne(atoms, absorber);
    ListedMembers(atoms, absorber, zs);
  }

  lemma {:induction false} DistinctCard(zs: seq<int>)
    requires Distinct(zs)
    ensures |set z | z in zs| == |zs|
  {
    if zs != [] {
      var rest := zs[1..];
      assert Distinct(rest);
      DistinctCard(rest);
      assert (set z | z in zs) == {zs[0]} + (set z | z in rest);
      assert zs[0] !in rest;
    }
  }

  /** Whatever order the set yields, `write_feff` lists the same species and writes the
      same number of POTENTIALS rows. */
  lemma PotentialsIndependentOfOrder(atoms: seq<Atom>, absorber: nat, zs1: seq<int>, zs2: seq<int>)
    requires absorber < |atoms| && Enumerates(zs1, atoms) && Enumerates(zs2, atoms)
    ensures forall z :: z in Listed(atoms, absorber, zs1) <==> z in Listed(atoms, absorber, zs2)
    ensures |Listed(atoms, absorber, zs1)| == |Listed(atoms, absorber, zs2)|
  {
    OwnPotentialRows(atoms, absorber, zs1);
    OwnPotentialRows(atoms, absorber, zs2);
    var l1 := Listed(atoms, absorber, zs1);
    var l2 := Listed(atoms, absorber, zs2);
    ListedDistinct(atoms, absorber, zs1);
    ListedDistinct(atoms, absorber, zs2);
    DistinctCard(l1);
    DistinctCard(l2);
    assert (set z | z in l1) == (set z | z in l2);
  }
}
