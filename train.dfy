/** The checkpoint loader of the training driver (train.py,
    CustomCheckpointIO.load_checkpoint): a checkpoint is either a single
    file, whose state dict may have to come from the weights file beside it,
    or a directory holding the training state and the weights separately.
    The weights' keys are renamed with the "model." prefix that the training
    module's parameter names carry.

    Deserialisation (`torch.load`) is an oracle from paths to maps; `None`
    stands for a load that raises. Tensors are opaque values. */
module Train {
  import opened Wrappers
  import opened Paths
  import opened Files

  /** A value in a checkpoint: an opaque tensor or other object, or a nested dictionary. */
  datatype Value = Opaque(id: nat) | Dict(entries: map<string, Value>)

  type Loader = Path -> Option<map<string, Value>>

  const ModelPrefix: string := "model."
  const StateDictKey: string := "state_dict"
  const WeightsFile: string := "pytorch_model.bin"
  const TrainingStateFile: string := "artifacts.ckpt"

  predicate HasModelPrefix(k: string) {
    |k| >= |ModelPrefix| && k[..|ModelPrefix|] == ModelPrefix
  }

  /** Prefixing is injective. */
  lemma PrefixInjective(a: string, b: string)
    requires ModelPrefix + a == ModelPrefix + b
    ensures a == b
  {
    assert a == (ModelPrefix + a)[|ModelPrefix|..];
    assert b == (ModelPrefix + b)[|ModelPrefix|..];
  }

  /** Prefixing is injective, for all pairs at once. */
  lemma PrefixInjectiveAll()
    ensures forall a: string, b: string :: ModelPrefix + a == ModelPrefix + b ==> a == b
  {
    forall a: string, b: string | ModelPrefix + a == ModelPrefix + b
      ensures a == b
    {
      PrefixInjective(a, b);
    }
  }

  /** Two prefixed keys with the same remainder are the same key. */
  lemma StripInjectiveAll()
    ensures forall a: string, b: string ::
      HasModelPrefix(a) && HasModelPrefix(b) && a[|ModelPrefix|..] == b[|ModelPrefix|..] ==> a == b
  {
    forall a: string, b: string | HasModelPrefix(a) && HasModelPrefix(b) && a[|ModelPrefix|..] == b[|ModelPrefix|..]
      ensures a == b
    {
      assert a == a[..|ModelPrefix|] + a[|ModelPrefix|..];
      assert b == b[..|ModelPrefix|] + b[|ModelPrefix|..];
    }
  }

  /** Prefixing every element of a set of keys keeps the number of keys. */
  lemma {:induction false} PrefixedKeysCount(keys: set<string>)
    ensures |set k | k in keys :: ModelPrefix + k| == |keys|
    decreases keys
  {
    if keys != {} {
      var x :| x in keys;
      var rest := keys - {x};
      PrefixedKeysCount(rest);
      var all := set k | k in keys :: ModelPrefix + k;
      var others := set k | k in rest :: ModelPrefix + k;
      assert all == others + {ModelPrefix + x};
      if ModelPrefix + x in others {
        var y :| y in rest && ModelPrefix + y == ModelPrefix + x;
        PrefixInjective(y, x);
      }
    }
  }

  /** `{"model." + key: value for key, value in sd.items()}`: every entry
      moves to the prefixed key with its value, every key of the result is
      a prefixed key of sd, and no two keys collide. */
  function Prefixed(sd: map<string, Value>): (r: map<string, Value>)
    ensures forall k :: k in sd ==> ModelPrefix + k in r && r[ModelPrefix + k] == sd[k]
    ensures forall k :: k in r ==> HasModelPrefix(k) && k[|ModelPrefix|..] in sd
    ensures |r| == |sd|
  {
    PrefixInjectiveAll();
    var r := map k | k in sd :: ModelPrefix + k := sd[k];
    assert r.Keys == set k | k in sd :: ModelPrefix + k;
    PrefixedKeysCount(sd.Keys);
    forall k | k in r
      ensures HasModelPrefix(k) && k[|ModelPrefix|..] in sd
    {
      var j :| j in sd && k == ModelPrefix + j;
      assert k[|ModelPrefix|..] == j;
    }
    r
  }

  /** The inverse renaming: strip the prefix from every prefixed key. */
  function Unprefixed(r: map<string, Value>): map<string, Value> {
    StripInjectiveAll();
    map k | k in r && HasModelPrefix(k) :: k[|ModelPrefix|..] := r[k]
  }

  /** Stripping the prefix undoes prefixing. */
  lemma UnprefixedPrefixed(sd: map<string, Value>)
    ensures Unprefixed(Prefixed(sd)) == sd
  {
    var r := Prefixed(sd);
    var u := Unprefixed(r);
    forall k | k in sd
      ensures k in u && u[k] == sd[k]
    {
      assert (ModelPrefix + k)[|ModelPrefix|..] == k;
    }
    assert u.Keys == sd.Keys;
  }

  /** `ckpt["state_dict"] = Prefixed(sd)`: the state dict entry is set and
      every other entry of the checkpoint stays as it was. */
  function WithStateDict(ckpt: map<string, Value>, sd: map<string, Value>): (r: map<string, Value>)
    ensures StateDictKey in r && r[StateDictKey] == Dict(Prefixed(sd))
    ensures forall k :: k != StateDictKey ==> (k in r <==> k in ckpt)
    ensures forall k :: k in ckpt && k != StateDictKey ==> r[k] == ckpt[k]
  {
    ckpt[StateDictKey := Dict(Prefixed(sd))]
  }

  /** `CustomCheckpointIO.load_checkpoint(path)`. A path that is an existing
      regular file is loaded, and its state dict, if it has none, is filled
      from the weights file in the same directory; any other path is taken
      for a directory whose training state gets the weights file's state
      dict. A load that raises is returned as an error. */
  method LoadCheckpoint(fs: Fs, load: Loader, path: string) returns (r: Result<map<string, Value>, Error>)
    ensures var p := Parse(path); IsFile(fs, p) ==>
      if load(p).None? then r == Err(LoadFailed(p))
      else if StateDictKey in load(p).value then r == Ok(load(p).value)
      else
        var w := Join(Parent(p), WeightsFile);
        if load(w).None? then r == Err(LoadFailed(w))
        else r == Ok(WithStateDict(load(p).value, load(w).value))
    ensures var p := Parse(path); !IsFile(fs, p) ==>
      var a, w := Join(p, TrainingStateFile), Join(p, WeightsFile);
      if load(a).None? then r == Err(LoadFailed(a))
      else if load(w).None? then r == Err(LoadFailed(w))
      else r == Ok(WithStateDict(load(a).value, load(w).value))
    ensures r.Ok? ==> StateDictKey in r.value
  {
    var p := Parse(path);
    if IsFile(fs, p) {
      var loaded := load(p);
      if loaded.None? {
        return Err(LoadFailed(p));
      }
      var ckpt := loaded.value;
      if StateDictKey !in ckpt {
        var weightsPath := Join(Parent(p), WeightsFile);
        var weights := load(weightsPath);
        if weights.None? {
          return Err(LoadFailed(weightsPath));
        }
        ckpt := ckpt[StateDictKey := Dict(Prefixed(weights.value))];
      }
      r := Ok(ckpt);
    } else {
      var statePath := Join(p, TrainingStateFile);
      var checkpoint := load(statePath);
      if checkpoint.None? {
        return Err(LoadFailed(statePath));
      }
      var weightsPath := Join(p, WeightsFile);
      var stateDict := load(weightsPath);
      if stateDict.None? {
        return Err(LoadFailed(weightsPath));
      }
      var ckpt := checkpoint.value;
      ckpt := ckpt[StateDictKey := Dict(Prefixed(stateDict.value))];
      r := Ok(ckpt);
    }
  }
}
