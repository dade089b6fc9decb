/**
 * The candidate universe, as the volume loader discovers it: for every model,
 * the scans it has a segmentation of, each with a usage counter starting at 0.
 */
module Volumes {
  import opened Wrappers
  import opened Naming

  /** scansAndModelsDict: model name -> scan name -> times the scan was used for that model. */
  type Usage = map<string, map<string, nat>>

  /** The models in discovery order (the dictionary's key order) and their scan usage. */
  datatype ScanIndex = ScanIndex(models: seq<string>, usage: Usage)

  ghost predicate Distinct(s: seq<string>)
  {
    forall i, j :: 0 <= i < j < |s| ==> s[i] != s[j]
  }

  /** Every model listed once, exactly the keys of the usage map, each with at least one scan. */
  ghost predicate WellFormed(index: ScanIndex)
  {
    && Distinct(index.models)
    && (forall m :: m in index.models <==> m in index.usage)
    && (forall m :: m in index.usage ==> |index.usage[m]| > 0)
  }

  datatype LoadVolumesError =
    | NoVolumes                  // no file matched the naming convention
    | BadVolumeName(name: string)  // a name that does not unpack into three parts

  /** The volumes in a sequence, as a set. */
  ghost function IdSet(ids: seq<VolumeId>): set<VolumeId>
  {
    if ids == [] then {} else IdSet(ids[..|ids| - 1]) + {ids[|ids| - 1]}
  }

  /** The models of the usage map are those of the given volumes. */
  ghost predicate RecordsModels(usage: Usage, ids: set<VolumeId>)
  {
    forall m :: m in usage <==> exists s :: VolumeId(s, m) in ids
  }

  /** Each model's scans are those it has a volume of. */
  ghost predicate RecordsScans(usage: Usage, ids: set<VolumeId>)
  {
    forall m, s :: m in usage ==> (s in usage[m] <==> VolumeId(s, m) in ids)
  }

  /** No scan has been used yet. */
  ghost predicate Unused(usage: Usage)
  {
    forall m, s :: m in usage && s in usage[m] ==> usage[m][s] == 0
  }

  /** The usage map records exactly the given volumes, every counter at 0. */
  ghost predicate Records(usage: Usage, ids: set<VolumeId>)
  {
    RecordsModels(usage, ids) && RecordsScans(usage, ids) && Unused(usage)
  }

  /** `usage[model][scan] = 0`, adding the model (at the end of the key order) when it is new. */
  function Register(index: ScanIndex, id: VolumeId): (r: ScanIndex)
    ensures id.model in r.usage && id.scan in r.usage[id.model] && r.usage[id.model][id.scan] == 0
    ensures r.usage.Keys == index.usage.Keys + {id.model}
    ensures forall m :: m in index.usage && m != id.model ==> r.usage[m] == index.usage[m]
    ensures id.model in index.usage ==>
      r.models == index.models && r.usage[id.model].Keys == index.usage[id.model].Keys + {id.scan}
      && forall s :: s in index.usage[id.model] && s != id.scan ==> r.usage[id.model][s] == index.usage[id.model][s]
    ensures id.model !in index.usage ==> r.models == index.models + [id.model] && r.usage[id.model].Keys == {id.scan}
  {
    if id.model in index.usage then
      ScanIndex(index.models, index.usage[id.model := index.usage[id.model][id.scan := 0]])
    else
      ScanIndex(index.models + [id.model], index.usage[id.model := map[id.scan := 0]])
  }

  lemma RegisterWellFormed(index: ScanIndex, id: VolumeId)
    requires WellFormed(index)
    ensures WellFormed(Register(index, id))
  {
  }

  lemma RegisterModels(index: ScanIndex, ids: set<VolumeId>, id: VolumeId)
    requires RecordsModels(index.usage, ids)
    ensures RecordsModels(Register(index, id).usage, ids + {id})
  {
    var next := Register(index, id);
    forall m | m in next.usage ensures exists s :: VolumeId(s, m) in ids + {id} {
      if m == id.model {
        assert VolumeId(id.scan, m) in ids + {id};
      }
    }
  }

  lemma RegisterScans(index: ScanIndex, ids: set<VolumeId>, id: VolumeId)
    requires RecordsModels(index.usage, ids) && RecordsScans(index.usage, ids)
    ensures RecordsScans(Register(index, id).usage, ids + {id})
  {
  }

  lemma RegisterUnused(index: ScanIndex, id: VolumeId)
    requires Unused(index.usage)
    ensures Unused(Register(index, id).usage)
  {
  }

  /** index records exactly the given volumes. */
  ghost predicate BuiltFrom(index: ScanIndex, ids: seq<VolumeId>)
  {
    WellFormed(index) && Records(index.usage, IdSet(ids))
  }

  /** One iteration of the loader: registering a volume extends what the index records. */
  lemma RegisterStep(index: ScanIndex, ids: seq<VolumeId>, id: VolumeId)
    requires BuiltFrom(index, ids)
    ensures BuiltFrom(Register(index, id), ids + [id])
  {
    var next := Register(index, id);
    var before := IdSet(ids);
    assert WellFormed(next) by { RegisterWellFormed(index, id); }
    assert Records(next.usage, IdSet(ids + [id])) by {
      assert (ids + [id])[..|ids|] == ids;
      assert IdSet(ids + [id]) == before + {id};
      assert RecordsModels(next.usage, before + {id}) by { RegisterModels(index, before, id); }
      assert RecordsScans(next.usage, before + {id}) by { RegisterScans(index, before, id); }
      assert Unused(next.usage) by { RegisterUnused(index, id); }
    }
  }

  /** The parsed scan and model of each name, when every name parses. */
  ghost predicate ParsedAs(names: seq<string>, ids: seq<VolumeId>)
  {
    |ids| == |names| && forall j :: 0 <= j < |names| ==> ParseVolumeName(names[j]) == Some(ids[j])
  }

  /** One more name parsed extends the parsed prefix by its volume. */
  lemma ParsedAsStep(names: seq<string>, i: nat, ids: seq<VolumeId>, id: VolumeId)
    requires i < |names| && ParsedAs(names[..i], ids) && ParseVolumeName(names[i]) == Some(id)
    ensures ParsedAs(names[..i + 1], ids + [id])
  {
    forall j | 0 <= j < i + 1 ensures ParseVolumeName(names[..i + 1][j]) == Some((ids + [id])[j]) {
      if j < i {
        assert names[..i + 1][j] == names[..i][j];
      }
    }
  }

  /**
   * Builds scansAndModelsDict from the base names of the volume files found
   * (extension removed), in the order they were listed: each name is split
   * into patient, model and sequence, and usage[model][patient_sequence] is
   * set to 0. The first name that does not have exactly three parts stops
   * the loader; no volumes at all is an error too.
   */
  method BuildScanIndex(names: seq<string>) returns (r: Result<ScanIndex, LoadVolumesError>)
    ensures names == [] ==> r == Failure(NoVolumes)
    ensures r.Success? <==> names != [] && forall i :: 0 <= i < |names| ==> ParseVolumeName(names[i]).Some?
    ensures r.Failure? && names != [] ==>
      exists k :: 0 <= k < |names| && r.error == BadVolumeName(names[k])
        && ParseVolumeName(names[k]).None?
        && forall j :: 0 <= j < k ==> ParseVolumeName(names[j]).Some?
    ensures r.Success? ==> exists ids :: ParsedAs(names, ids) && BuiltFrom(r.value, ids)
  {
    if names == [] {
      return Failure(NoVolumes);
    }
    var index := ScanIndex([], map[]);
    ghost var ids: seq<VolumeId> := [];
    for i := 0 to |names|
      invariant ParsedAs(names[..i], ids)
      invariant BuiltFrom(index, ids)
    {
      var id := ParseVolumeName(names[i]);
      if id.None? {
        return Failure(BadVolumeName(names[i]));
      }
      ParsedAsStep(names, i, ids, id.value);
      RegisterStep(index, ids, id.value);
      index := Register(index, id.value);
      ids := ids + [id.value];
    }
    assert names[..|names|] == names;
    r := Success(index);
  }

  /** `usage[model][scan] += 1`: one more use of the scan for the model. */
  function Bump(usage: Usage, model: string, scan: string): (r: Usage)
    requires model in usage && scan in usage[model]
    ensures r.Keys == usage.Keys && r[model].Keys == usage[model].Keys
    ensures r[model][scan] == usage[model][scan] + 1
    ensures forall s :: s in usage[model] && s != scan ==> r[model][s] == usage[model][s]
    ensures forall m :: m in usage && m != model ==> r[m] == usage[m]
  {
    usage[model := usage[model][scan := usage[model][scan] + 1]]
  }

  /**
   * Counting a judgement of two different models on a scan: both counters of
   * the scan rise by one, every other counter is unchanged, and no model or
   * scan is added or removed.
   */
  lemma BumpPair(index: ScanIndex, left: string, right: string, scan: string)
    requires WellFormed(index) && left != right
    requires left in index.usage && scan in index.usage[left]
    requires right in index.usage && scan in index.usage[right]
    ensures var u := Bump(Bump(index.usage, left, scan), right, scan);
      && WellFormed(ScanIndex(index.models, u))
      && u.Keys == index.usage.Keys
      && (forall m :: m in u ==> u[m].Keys == index.usage[m].Keys)
      && u[left][scan] == index.usage[left][scan] + 1
      && u[right][scan] == index.usage[right][scan] + 1
      && (forall m, s :: m in u && s in u[m] && !((m == left || m == right) && s == scan) ==>
            u[m][s] == index.usage[m][s])
  {
  }
}
