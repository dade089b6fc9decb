/**
 * Volume names. A segmentation volume is named patientId_model_sequence; the
 * scan it belongs to is patientId_sequence. Names are taken apart with
 * Python's str.split("_") and put together with "_".join.
 */
module Naming {
  import opened Wrappers

  const Separator: char := '_'

  /** The pair on display: a scan and the two models whose segmentations of it are compared. */
  datatype NextPair = NextPair(scan: string, left: string, right: string)

  /** A volume file name split into the scan it shows and the model that produced it. */
  datatype VolumeId = VolumeId(scan: string, model: string)

  /** str.split("_"): the pieces between separators, empty pieces included. */
  function Split(s: string): (parts: seq<string>)
    ensures |parts| >= 1
    ensures forall i :: 0 <= i < |parts| ==> Separator !in parts[i]
    decreases |s|
  {
    if s == [] then [""]
    else
      var rest := Split(s[1..]);
      if s[0] == Separator then [""] + rest
      else [[s[0]] + rest[0]] + rest[1..]
  }

  /** "_".join(parts). */
  function Join(parts: seq<string>): (s: string)
    ensures |parts| > 0 ==> parts[0] <= s
    ensures |parts| > 1 ==> |s| > |parts[0]| && s[|parts[0]|] == Separator
  {
    if |parts| == 0 then ""
    else if |parts| == 1 then parts[0]
    else parts[0] + [Separator] + Join(parts[1..])
  }

  /** A piece followed by a separator splits off as one part. */
  lemma {:induction false} SplitAtSeparator(a: string, b: string)
    requires Separator !in a
    ensures Split(a + [Separator] + b) == [a] + Split(b)
    decreases |a|
  {
    var s := a + [Separator] + b;
    if a != [] {
      assert s[1..] == a[1..] + [Separator] + b;
      SplitAtSeparator(a[1..], b);
      assert [a[0]] + a[1..] == a;
    } else {
      assert s[1..] == b;
    }
  }

  /** A string without separators is a single part. */
  lemma {:induction false} SplitWithoutSeparator(a: string)
    requires Separator !in a
    ensures Split(a) == [a]
    decreases |a|
  {
    if a != [] {
      SplitWithoutSeparator(a[1..]);
      assert [a[0]] + a[1..] == a;
    }
  }

  /** Joining separator-free parts and splitting again gives the parts back. */
  lemma {:induction false} SplitJoin(parts: seq<string>)
    requires |parts| >= 1
    requires forall i :: 0 <= i < |parts| ==> Separator !in parts[i]
    ensures Split(Join(parts)) == parts
    decreases |parts|
  {
    if |parts| == 1 {
      SplitWithoutSeparator(parts[0]);
    } else {
      SplitJoin(parts[1..]);
      SplitAtSeparator(parts[0], Join(parts[1..]));
      assert [parts[0]] + parts[1..] == parts;
    }
  }

  /** Splitting and joining again gives the string back. */
  lemma {:induction false} JoinSplit(s: string)
    ensures Join(Split(s)) == s
    decreases |s|
  {
    if s != [] {
      var rest := Split(s[1..]);
      JoinSplit(s[1..]);
      if s[0] == Separator {
        assert ([""] + rest)[1..] == rest;
      } else if |rest| > 1 {
        assert ([[s[0]] + rest[0]] + rest[1..])[1..] == rest[1..];
      }
      assert [s[0]] + s[1..] == s;
    }
  }

  /**
   * The volume name of a model's segmentation of a scan: the scan's first
   * part, the model, then the rest of the scan's parts.
   */
  function NameFromPatientSequenceAndModel(patientSequence: string, model: string): (name: string)
    ensures Split(patientSequence)[0] + [Separator] + model + [Separator] <= name
    ensures Separator !in patientSequence ==> name == patientSequence + [Separator] + model + [Separator]
  {
    var parts := Split(patientSequence);
    var name := parts[0] + [Separator] + model + [Separator] + Join(parts[1..]);
    if Separator in patientSequence then name
    else
      SplitWithoutSeparator(patientSequence);
      name
  }

  /** For separator-free patientId, model and sequence: patientId_sequence and model make patientId_model_sequence. */
  lemma NameOfPatientSequence(patientId: string, model: string, sequence: string)
    requires Separator !in patientId && Separator !in model && Separator !in sequence
    ensures NameFromPatientSequenceAndModel(patientId + [Separator] + sequence, model)
         == patientId + [Separator] + model + [Separator] + sequence
  {
    SplitAtSeparator(patientId, sequence);
    SplitWithoutSeparator(sequence);
    assert Split(patientId + [Separator] + sequence)[1..] == [sequence];
  }

  /** The scan's parts after the first, joined and split again, or one empty part when there are none. */
  lemma SplitTailOfScan(patientSequence: string)
    ensures var scanParts := Split(patientSequence);
      Split(Join(scanParts[1..])) == if |scanParts| == 1 then [""] else scanParts[1..]
  {
    var scanParts := Split(patientSequence);
    if |scanParts| > 1 {
      SplitJoin(scanParts[1..]);
    }
  }

  /** A volume name splits after the scan's first part. */
  lemma SplitName(patientSequence: string, model: string)
    ensures var scanParts := Split(patientSequence);
      Split(NameFromPatientSequenceAndModel(patientSequence, model))
        == [scanParts[0]] + Split(model + [Separator] + Join(scanParts[1..]))
  {
    var scanParts := Split(patientSequence);
    var tail := model + [Separator] + Join(scanParts[1..]);
    assert NameFromPatientSequenceAndModel(patientSequence, model) == scanParts[0] + [Separator] + tail;
    SplitAtSeparator(scanParts[0], tail);
  }

  /** The parts of a volume name: the scan's first part, the model, and the scan's other parts. */
  lemma NameParts(patientSequence: string, model: string)
    requires Separator !in model
    ensures var scanParts := Split(patientSequence);
      Split(NameFromPatientSequenceAndModel(patientSequence, model))
        == [scanParts[0], model] + (if |scanParts| == 1 then [""] else scanParts[1..])
  {
    var scanParts := Split(patientSequence);
    var rest := if |scanParts| == 1 then [""] else scanParts[1..];
    SplitTailOfScan(patientSequence);
    SplitAtSeparator(model, Join(scanParts[1..]));
    SplitName(patientSequence, model);
    assert [scanParts[0]] + ([model] + rest) == [scanParts[0], model] + rest;
  }

  /**
   * The unpacking `patientId, model, sequence = name.split('_')` of the
   * volume loader: a name of exactly three parts, or the ValueError (None).
   */
  function ParseVolumeName(name: string): (id: Option<VolumeId>)
    ensures id.Some? <==> |Split(name)| == 3
    ensures id.Some? ==> Separator !in id.value.model && Separator in id.value.scan
  {
    var parts := Split(name);
    if |parts| == 3 then Some(VolumeId(parts[0] + [Separator] + parts[2], parts[1])) else None
  }

  /**
   * A name is accepted exactly when it has three parts, and what the loader
   * takes from it is what names it: a two-part scan and a separator-free
   * model whose volume name is the name parsed.
   */
  lemma ParseVolumeNameSound(name: string)
    ensures ParseVolumeName(name).Some? <==> |Split(name)| == 3
    ensures ParseVolumeName(name).Some? ==>
      var id := ParseVolumeName(name).value;
      |Split(id.scan)| == 2 && Separator !in id.model
      && NameFromPatientSequenceAndModel(id.scan, id.model) == name
  {
    var parts := Split(name);
    if |parts| != 3 {
      return;
    }
    var scan := parts[0] + [Separator] + parts[2];
    assert |Split(scan)| == 2 by {
      SplitAtSeparator(parts[0], parts[2]);
      SplitWithoutSeparator(parts[2]);
    }
    assert NameFromPatientSequenceAndModel(scan, parts[1]) == parts[0] + [Separator] + parts[1] + [Separator] + parts[2] by {
      NameOfPatientSequence(parts[0], parts[1], parts[2]);
    }
    assert Join(parts) == parts[0] + [Separator] + parts[1] + [Separator] + parts[2] by {
      assert parts[1..][1..] == parts[2..] && Join(parts[2..]) == parts[2];
      assert Join(parts[1..]) == parts[1] + [Separator] + parts[2];
    }
    JoinSplit(name);
  }

  /** Parsing the name built for a two-part scan and a model gives both back. */
  lemma ParseVolumeNameRoundTrip(scan: string, model: string)
    requires |Split(scan)| == 2 && Separator !in model
    ensures ParseVolumeName(NameFromPatientSequenceAndModel(scan, model)) == Some(VolumeId(scan, model))
  {
    var parts := Split(scan);
    NameParts(scan, model);
    JoinSplit(scan);
  }

  /** Why a pair could not be read back from two volume names: a name has too few parts. */
  datatype PairError = MissingNamePart

  /**
   * The pair shown by a history row, read back from its two volume names:
   * nothing when both are empty; otherwise the scan from the left name's first
   * and third parts and each model from its name's second part (an IndexError
   * when a name has too few parts).
   */
  function PairFromNames(leftName: string, rightName: string): (r: Result<Option<NextPair>, PairError>)
    ensures r == Success(None) <==> leftName == "" && rightName == ""
    ensures r.Failure? <==> (leftName != "" || rightName != "") && (|Split(leftName)| < 3 || |Split(rightName)| < 2)
  {
    if leftName == "" && rightName == "" then Success(None)
    else
      var l, r := Split(leftName), Split(rightName);
      if |l| < 3 || |r| < 2 then Failure(MissingNamePart)
      else Success(Some(NextPair(l[0] + [Separator] + l[2], l[1], r[1])))
  }

  /** The two volume names written for a pair read back as that pair. */
  lemma PairFromNamesRoundTrip(pair: NextPair)
    requires |Split(pair.scan)| == 2 && Separator !in pair.left && Separator !in pair.right
    ensures PairFromNames(NameFromPatientSequenceAndModel(pair.scan, pair.left),
                          NameFromPatientSequenceAndModel(pair.scan, pair.right)) == Success(Some(pair))
  {
    NameParts(pair.scan, pair.left);
    NameParts(pair.scan, pair.right);
    JoinSplit(pair.scan);
    var leftName := NameFromPatientSequenceAndModel(pair.scan, pair.left);
    assert |Split(leftName)| == 3;
  }
}
