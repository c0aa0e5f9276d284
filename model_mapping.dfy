/**
 * Label to 3D model path, after `backend/app/utils/model_mapping.py`: a fixed table of seven
 * labels, looked up in lower case, falling back to the heart model.
 */
module ModelMapping {
  import opened Text

  /** `LABEL_TO_MODEL`, in declaration order. */
  const LabelToModel: seq<(string, string)> := [
    ("heart", "heart.glb"),
    ("dna", "dna.glb"),
    ("cell", "cell.glb"),
    ("atom", "atom.glb"),
    ("lever", "lever.glb"),
    ("pendulum", "pendulum.glb"),
    ("ac circuit", "ac_circuit.glb")]

  const ModelsPrefix := "/static/models/"
  const DefaultModel := "heart.glb"

  /** Position `i` holds the first entry of `table` with key `name`. */
  predicate FirstKeyAt(table: seq<(string, string)>, name: string, i: int) {
    0 <= i < |table| && table[i].0 == name && forall j :: 0 <= j < i ==> table[j].0 != name
  }

  /** `dict.get(key, default)` over a table in declaration order. */
  function ModelFileIn(table: seq<(string, string)>, name: string, fallback: string): (f: string)
    ensures (forall i :: 0 <= i < |table| ==> table[i].0 != name) ==> f == fallback
    ensures forall i :: FirstKeyAt(table, name, i) ==> f == table[i].1
  {
    if table == [] then fallback
    else if table[0].0 == name then table[0].1
    else
      var f := ModelFileIn(table[1..], name, fallback);
      assert forall i :: 1 <= i < |table| ==> table[i] == table[1..][i - 1];
      f
  }

  /** `get_model_path`: the models directory followed by the label's model file. */
  function GetModelPath(name: string): (p: string)
    ensures |p| > |ModelsPrefix| && p[..|ModelsPrefix|] == ModelsPrefix
  {
    var file := ModelFileIn(LabelToModel, Lower(name), DefaultModel);
    assert file != "" by { FilesNonEmpty(Lower(name)); }
    ModelsPrefix + file
  }

  lemma FilesNonEmpty(name: string)
    ensures ModelFileIn(LabelToModel, name, DefaultModel) != ""
  {
    if forall i :: 0 <= i < |LabelToModel| ==> LabelToModel[i].0 != name {
    } else {
      var i :| 0 <= i < |LabelToModel| && LabelToModel[i].0 == name;
      FirstWithKey(LabelToModel, name, i);
    }
  }

  /** The first entry with a given key precedes or is any other entry with it. */
  lemma {:induction false} FirstWithKey(table: seq<(string, string)>, name: string, i: nat)
    requires i < |table| && table[i].0 == name
    ensures exists k :: 0 <= k <= i && FirstKeyAt(table, name, k)
  {
    if exists k :: 0 <= k < i && table[k].0 == name {
      var k :| 0 <= k < i && table[k].0 == name;
      FirstWithKey(table, name, k);
    } else {
      assert FirstKeyAt(table, name, i);
    }
  }

  /** The lookup ignores case: a label and its lower-case form map to the same path. */
  lemma CaseInsensitive(name: string)
    ensures GetModelPath(name) == GetModelPath(Lower(name))
  {
    LowerIdempotent(name);
  }

  /** Every label in the table is already lower case. */
  lemma KeysAreLowerCase()
    ensures forall i :: 0 <= i < |LabelToModel| ==> Lower(LabelToModel[i].0) == LabelToModel[i].0
  {
    forall i | 0 <= i < |LabelToModel|
      ensures Lower(LabelToModel[i].0) == LabelToModel[i].0
    {
      var k := LabelToModel[i].0;
      assert forall c :: c in k ==> !('A' <= c <= 'Z');
      assert forall j :: 0 <= j < |k| ==> LowerChar(k[j]) == k[j];
    }
  }

  lemma KeysDistinct()
    ensures forall i, j :: 0 <= i < j < |LabelToModel| ==> LabelToModel[i].0 != LabelToModel[j].0
  {
  }

  /** Every label of the table maps to its own model file, e.g. "ac circuit" to "ac_circuit.glb". */
  lemma TableLabelsMapToTheirFile(i: nat)
    requires i < |LabelToModel|
    ensures GetModelPath(LabelToModel[i].0) == ModelsPrefix + LabelToModel[i].1
  {
    KeysAreLowerCase();
    KeysDistinct();
  }

  /** A label outside the table, in any case, gets the heart model. */
  lemma UnknownLabelGetsHeart(name: string)
    requires forall i :: 0 <= i < |LabelToModel| ==> LabelToModel[i].0 != Lower(name)
    ensures GetModelPath(name) == "/static/models/heart.glb"
  {
  }

  /** `get_available_labels`: the table's labels, in declaration order. */
  function GetAvailableLabels(): (r: seq<string>)
    ensures |r| == 7
    ensures forall i :: 0 <= i < |r| ==> r[i] == LabelToModel[i].0
    ensures forall l :: l in r <==> exists i :: 0 <= i < |LabelToModel| && LabelToModel[i].0 == l
  {
    seq(|LabelToModel|, i requires 0 <= i < |LabelToModel| => LabelToModel[i].0)
  }
}
