/** The PDBe PISA interface handler (`PDBePisaInterfaceHandler`): argument
    check, a fetch where 404 and 422 mean "no interface", and a summary whose
    bond lists and molecule lists are cut to five. */
module Pisa {
  import opened Js
  import opened Net

  const DefaultMax: nat := 5


  /** `limitSub(arr, max)`: the first `max` elements of an array, nothing otherwise. */
  function LimitSub(arr: Json, max: nat): (r: seq<Json>)
    ensures !arr.Arr? ==> r == []
    ensures arr.Arr? ==> |r| == Min(|arr.items|, max) && r == arr.items[..|r|]
  {
    if arr.Arr? then arr.items[..Min(|arr.items|, max)] else []
  }

  datatype Atom = Atom(chain: Json, residue: Json, uniprot: Json, uniprotPos: Json)
  datatype Bond = Bond(distance: Json, atom1: Atom, atom2: Atom)
  datatype BondSummary = BondSummary(totalCount: nat, shownCount: nat, truncated: bool, bonds: seq<Bond>)

  /** The atom of side `side` ("1" or "2") of bond `i`, read position by position. */
  function AtomAt(block: Json, side: string, i: nat): Atom {
    Atom(Index(Get(block, "atom_site_" + side + "_chains"), i),
         Index(Get(block, "atom_site_" + side + "_residues"), i),
         Index(Get(block, "atom_site_" + side + "_unp_accs"), i),
         Index(Get(block, "atom_site_" + side + "_unp_nums"), i))
  }

  /** Bond `i` of a block: distance `i` and the atoms at index `i` of both sides. */
  function BondAt(block: Json, distance: Json, i: nat): Bond {
    Bond(distance, AtomAt(block, "1", i), AtomAt(block, "2", i))
  }

  /** The bond records for the first `n` distances. */
  function BondsUpTo(block: Json, distances: seq<Json>, n: nat): (r: seq<Bond>)
    requires n <= |distances|
    ensures |r| == n
    ensures forall i :: 0 <= i < n ==> r[i] == BondAt(block, distances[i], i)
  {
    if n == 0 then []
    else
      var init := BondsUpTo(block, distances, n - 1);
      var r := init + [BondAt(block, distances[n - 1], n - 1)];
      assert forall i :: 0 <= i < n - 1 ==> r[i] == init[i];
      r
  }

  /** `summarizeBondBlock(block, max)`: null for a falsy or non-object block;
      otherwise the count of distances, the first `max` bonds and whether any
      were cut. A `bond_distances` that is neither absent nor an array cannot
      be mapped and throws. */
  function SummarizeBondBlock(block: Json, max: nat): (r: Result<Option<BondSummary>>)
    ensures !IsTruthy(block) || !IsObjectLike(block) ==> r == Ok(None)
  {
    if !IsTruthy(block) || !IsObjectLike(block) then Ok(None)
    else
      match Get(block, "bond_distances")
      case Undefined => Ok(Some(BondSummary(0, 0, false, [])))
      case Null => Ok(Some(BondSummary(0, 0, false, [])))
      case Arr(ds) =>
        var bonds := BondsUpTo(block, ds, Min(|ds|, max));
        Ok(Some(BondSummary(|ds|, |bonds|, |ds| > |bonds|, bonds)))
      case _ => Err("TypeError: block.bond_distances.map is not a function")
  }

  /** The summary counts what there is, shows at most `max`, flags exactly a
      cut, and pairs bond i with distance i and the atoms at index i. */
  lemma BondSummarySpec(block: Json, max: nat)
    requires SummarizeBondBlock(block, max).Ok? && SummarizeBondBlock(block, max).value.Some?
    ensures var s := SummarizeBondBlock(block, max).value.value;
      var ds := Get(block, "bond_distances");
      && s.totalCount == (if ds.Arr? then |ds.items| else 0)
      && s.shownCount == Min(s.totalCount, max) == |s.bonds|
      && (s.truncated <==> s.totalCount > s.shownCount)
      && forall i :: 0 <= i < |s.bonds| ==>
           s.bonds[i] == Bond(Index(ds, i), AtomAt(block, "1", i), AtomAt(block, "2", i))
  {
  }

  datatype Molecule = Molecule(moleculeId: Json, moleculeClass: Json, chainId: Json, residueCount: Json,
                               buriedSurfaceArea: seq<Json>, solvationEnergy: seq<Json>)

  /** The record of one non-null molecule: its ids and class, the length of
      `residue_seq_ids` (0 when absent), and the first five buried areas and
      solvation energies. */
  function MoleculeOf(m: Json): Molecule {
    Molecule(Get(m, "molecule_id"), Get(m, "molecule_class"), Get(m, "chain_id"),
             Coalesce(Get(Get(m, "residue_seq_ids"), "length"), Num(0)),
             LimitSub(Get(m, "buried_surface_areas"), DefaultMax),
             LimitSub(Get(m, "solvation_energies"), DefaultMax))
  }

  /** `data.molecules?.map(...)` over the first `n` molecules; a null molecule throws. */
  function MoleculesUpTo(ms: seq<Json>, n: nat): (r: Result<seq<Molecule>>)
    requires n <= |ms|
    ensures r.Ok? <==> forall i :: 0 <= i < n ==> !IsNullish(ms[i])
    ensures r.Err? ==> r == Err(TypeErrorMessage)
    ensures r.Ok? ==> |r.value| == n
    ensures r.Ok? ==> forall i :: 0 <= i < n ==> r.value[i] == MoleculeOf(ms[i])
  {
    if n == 0 then Ok([])
    else
      var init := MoleculesUpTo(ms, n - 1);
      var m := ms[n - 1];
      if init.Err? then init
      else if IsNullish(m) then Err(TypeErrorMessage)
      else Ok(init.value + [MoleculeOf(m)])
  }

  /** `limitSub(data.molecules?.map(...))`: no molecules when the list is
      absent; otherwise every molecule is mapped (a null one throws) and the
      first five are kept; a value that is no array cannot be mapped. */
  function Molecules(molecules: Json): (r: Result<seq<Molecule>>)
    ensures IsNullish(molecules) ==> r == Ok([])
    ensures !IsNullish(molecules) && !molecules.Arr? ==> r == Err("TypeError: data.molecules?.map is not a function")
    ensures molecules.Arr? ==> (r.Ok? <==> forall i :: 0 <= i < |molecules.items| ==> !IsNullish(molecules.items[i]))
    ensures molecules.Arr? && r.Err? ==> r == Err(TypeErrorMessage)
    ensures r.Ok? && molecules.Arr? ==>
      && |r.value| == Min(|molecules.items|, DefaultMax)
      && forall i :: 0 <= i < |r.value| ==> r.value[i] == MoleculeOf(molecules.items[i])
  {
    match molecules
    case Undefined => Ok([])
    case Null => Ok([])
    case Arr(ms) =>
      var all := MoleculesUpTo(ms, |ms|);
      if all.Err? then all else Ok(all.value[..Min(|all.value|, DefaultMax)])
    case _ => Err("TypeError: data.molecules?.map is not a function")
  }

  /** Each molecule's area and energy lists hold at most five values. */
  lemma MoleculeBounds(m: Json)
    ensures |MoleculeOf(m).buriedSurfaceArea| <= DefaultMax && |MoleculeOf(m).solvationEnergy| <= DefaultMax
  {
  }

  datatype Interface = Interface(interfaceId: Json, interfaceArea: Json, solvationEnergy: Json,
                                 stabilizationEnergy: Json, pValue: Json, residueCount: Json,
                                 hydrogen: Option<BondSummary>, salt: Option<BondSummary>,
                                 disulfide: Option<BondSummary>, covalent: Option<BondSummary>,
                                 other: Option<BondSummary>, molecules: seq<Molecule>)

  /** The bond blocks of an interface, in the order of the summary. */
  const BlockNames: seq<string> := ["hydrogen_bonds", "salt_bridges", "disulfide_bonds", "covalent_bonds", "other_bonds"]

  /** The five bond blocks, summarised in order; the first that throws decides. */
  function Blocks(data: Json): Result<seq<Option<BondSummary>>>
  {
    BlocksUpTo(data, BlockNames, |BlockNames|)
  }

  function BlocksUpTo(data: Json, names: seq<string>, n: nat): (r: Result<seq<Option<BondSummary>>>)
    requires n <= |names|
    ensures r.Ok? ==> |r.value| == n
  {
    if n == 0 then Ok([])
    else
      var init := BlocksUpTo(data, names, n - 1);
      if init.Err? then init
      else
        var b := SummarizeBondBlock(Get(data, names[n - 1]), DefaultMax);
        if b.Err? then Err(b.message) else Ok(init.value + [b.value])
  }

  /** The summary of a non-null reply. */
  function Summarize(data: Json): Result<Interface>
    requires !IsNullish(data)
  {
    var blocks := Blocks(data);
    if blocks.Err? then Err(blocks.message)
    else
      var ms := Molecules(Get(data, "molecules"));
      if ms.Err? then Err(ms.message)
      else
        var b := blocks.value;
        Ok(Interface(Get(data, "interface_id"), Get(data, "interface_area"), Get(data, "solvation_energy"),
                     Get(data, "stabilization_energy"), Get(data, "p_value"), Get(data, "number_interface_residues"),
                     b[0], b[1], b[2], b[3], b[4], ms.value))
  }

  /** The summary of a reply carries its interface fields as they are, the
      five bond blocks summarised in order, and the molecules of its
      `molecules` list; it fails exactly when a block or the molecule list
      throws. */
  lemma SummarizeSpec(data: Json)
    requires !IsNullish(data)
    ensures var hydrogen := SummarizeBondBlock(Get(data, BlockNames[0]), DefaultMax);
      var salt := SummarizeBondBlock(Get(data, BlockNames[1]), DefaultMax);
      var disulfide := SummarizeBondBlock(Get(data, BlockNames[2]), DefaultMax);
      var covalent := SummarizeBondBlock(Get(data, BlockNames[3]), DefaultMax);
      var other := SummarizeBondBlock(Get(data, BlockNames[4]), DefaultMax);
      var ms := Molecules(Get(data, "molecules"));
      && (Summarize(data).Ok? <==> hydrogen.Ok? && salt.Ok? && disulfide.Ok? && covalent.Ok? && other.Ok? && ms.Ok?)
      && (Summarize(data).Ok? ==>
            Summarize(data).value ==
              Interface(Get(data, "interface_id"), Get(data, "interface_area"), Get(data, "solvation_energy"),
                        Get(data, "stabilization_energy"), Get(data, "p_value"), Get(data, "number_interface_residues"),
                        hydrogen.value, salt.value, disulfide.value, covalent.value, other.value, ms.value))
  {
    BlocksSpec(data);
    var hydrogen := SummarizeBondBlock(Get(data, BlockNames[0]), DefaultMax);
    var salt := SummarizeBondBlock(Get(data, BlockNames[1]), DefaultMax);
    var disulfide := SummarizeBondBlock(Get(data, BlockNames[2]), DefaultMax);
    var covalent := SummarizeBondBlock(Get(data, BlockNames[3]), DefaultMax);
    var other := SummarizeBondBlock(Get(data, BlockNames[4]), DefaultMax);
    var all := hydrogen.Ok? && salt.Ok? && disulfide.Ok? && covalent.Ok? && other.Ok?;
    assert Blocks(data).Ok? <==> all by {
      if all {
        forall k | 0 <= k < |BlockNames|
          ensures SummarizeBondBlock(Get(data, BlockNames[k]), DefaultMax).Ok?
        {
          assert k == 0 || k == 1 || k == 2 || k == 3 || k == 4;
        }
      }
    }
    if Blocks(data).Ok? {
      var b := Blocks(data).value;
      assert hydrogen == Ok(b[0]) && salt == Ok(b[1]) && disulfide == Ok(b[2]);
      assert covalent == Ok(b[3]) && other == Ok(b[4]);
    }
  }

  /** The blocks succeed exactly when each of the five does, and block k is
      the summary of the k-th named block. */
  lemma BlocksSpec(data: Json)
    ensures Blocks(data).Ok? <==>
      forall k :: 0 <= k < |BlockNames| ==> SummarizeBondBlock(Get(data, BlockNames[k]), DefaultMax).Ok?
    ensures Blocks(data).Ok? ==>
      forall k :: 0 <= k < |BlockNames| ==> SummarizeBondBlock(Get(data, BlockNames[k]), DefaultMax) == Ok(Blocks(data).value[k])
  {
    if Blocks(data).Ok? {
      forall k | 0 <= k < |BlockNames|
        ensures SummarizeBondBlock(Get(data, BlockNames[k]), DefaultMax) == Ok(Blocks(data).value[k])
      {
        BlocksElement(data, BlockNames, |BlockNames|, k);
      }
    } else {
      BlocksErr(data, BlockNames, |BlockNames|);
    }
  }

  /** The arguments: `pdb_id` (empty when missing) and the two numeric ids. */
  datatype Args = Args(pdbId: string, assemblyId: Json, interfaceId: Json)

  datatype Answer = Answer(pdbId: string, assemblyId: Json, interfaceId: Json, count: nat, data: seq<Interface>)

  function InterfaceRequest(args: Args): Request {
    Request("pdbe/api/pisa/interface/" + args.pdbId + "/" + ToStr(args.assemblyId) + "/" + ToStr(args.interfaceId),
            [args.pdbId, ToStr(args.assemblyId), ToStr(args.interfaceId)])
  }

  /** The service name in this handler's fetch failures. */
  const Service: string := "PDBe API"

  /** `!pdb_id || assembly_id == null || interface_id == null` */
  predicate MissingArgument(args: Args) {
    args.pdbId == "" || IsNullish(args.assemblyId) || IsNullish(args.interfaceId)
  }

  /** `PDBePisaInterfaceHandler.run` */
  function Run(args: Args, net: Request -> Reply): (r: Result<Answer>)
    ensures MissingArgument(args) ==> r == Err("pdb_id, assembly_id and interface_id are required")
    ensures r.Ok? ==> r.value.count == |r.value.data| <= 1
  {
    if MissingArgument(args) then Err("pdb_id, assembly_id and interface_id are required")
    else
      var data := FetchOrNull(net(InterfaceRequest(args)), Service);
      if data.Err? then Err(data.message)
      else if !IsTruthy(data.value) then Ok(Answer(args.pdbId, args.assemblyId, args.interfaceId, 0, []))
      else
        var s := Summarize(data.value);
        if s.Err? then Err(s.message)
        else Ok(Answer(args.pdbId, args.assemblyId, args.interfaceId, 1, [s.value]))
  }

  /** No interface (a 404, a 422 or a null body) is an empty answer, not an error. */
  lemma EmptyInterface(args: Args, net: Request -> Reply)
    requires !MissingArgument(args)
    ensures var reply := net(InterfaceRequest(args));
      (reply.Response? && (reply.status == 404 || reply.status == 422)) || (IsOk(reply) && reply.body == Some(Null)) ==>
        Run(args, net) == Ok(Answer(args.pdbId, args.assemblyId, args.interfaceId, 0, []))
  {
  }

  /** A found interface (a truthy body of an ok reply) is answered with a
      count of one and its summary; a summary that throws, or a failed fetch,
      is the handler's error. */
  lemma FoundInterface(args: Args, net: Request -> Reply)
    requires !MissingArgument(args)
    ensures var reply := net(InterfaceRequest(args));
      FetchOrNull(reply, Service).Err? ==> Run(args, net) == Err(FetchOrNull(reply, Service).message)
    ensures var reply := net(InterfaceRequest(args));
      IsOk(reply) && reply.body.Some? && IsTruthy(reply.body.value) ==>
        var s := Summarize(reply.body.value);
        && (s.Ok? ==> Run(args, net) == Ok(Answer(args.pdbId, args.assemblyId, args.interfaceId, 1, [s.value])))
        && (s.Err? ==> Run(args, net) == Err(s.message))
  {
  }

  /** Every bond list of a returned interface holds at most five bonds, and
      at most five molecules are listed. */
  lemma InterfaceBounds(data: Json)
    requires !IsNullish(data) && Summarize(data).Ok?
    ensures var s := Summarize(data).value;
      && |s.molecules| <= DefaultMax
      && forall b <- [s.hydrogen, s.salt, s.disulfide, s.covalent, s.other] ::
           b.Some? ==> |b.value.bonds| <= DefaultMax && (b.value.truncated <==> b.value.totalCount > DefaultMax)
  {
    var names := BlockNames;
    var blocks := BlocksUpTo(data, names, 5).value;
    forall k | 0 <= k < 5
      ensures blocks[k].Some? ==> |blocks[k].value.bonds| <= DefaultMax
                                  && (blocks[k].value.truncated <==> blocks[k].value.totalCount > DefaultMax)
    {
      BlocksElement(data, names, 5, k);
      if blocks[k].Some? {
        BondSummarySpec(Get(data, names[k]), DefaultMax);
      }
    }
  }

  /** The blocks fail only when one of them throws. */
  lemma {:induction false} BlocksErr(data: Json, names: seq<string>, n: nat)
    requires n <= |names| && BlocksUpTo(data, names, n).Err?
    ensures exists k :: 0 <= k < n && SummarizeBondBlock(Get(data, names[k]), DefaultMax).Err?
  {
    if BlocksUpTo(data, names, n - 1).Err? {
      BlocksErr(data, names, n - 1);
    }
  }

  /** Element k of the summarised blocks is the summary of block k. */
  lemma {:induction false} BlocksElement(data: Json, names: seq<string>, n: nat, k: nat)
    requires n <= |names| && k < n && BlocksUpTo(data, names, n).Ok?
    ensures SummarizeBondBlock(Get(data, names[k]), DefaultMax) == Ok(BlocksUpTo(data, names, n).value[k])
  {
    if k < n - 1 {
      BlocksElement(data, names, n - 1, k);
    }
  }
}
