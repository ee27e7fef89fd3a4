/** Plain JavaScript objects and the in-place `extend` of the two older versions. */
module Objects {
  import opened Js

  /** An object whose own enumerable properties the module reads and overwrites. */
  class JsObject {
    var props: map<string, Value>

    constructor (initial: map<string, Value>)
      ensures props == initial
    {
      props := initial;
    }
  }

  /** `target` with the own properties of each source copied over it, in argument order. */
  function Merged(target: map<string, Value>, sources: seq<map<string, Value>>): map<string, Value>
  {
    if sources == [] then target
    else Merged(target, sources[..|sources| - 1]) + sources[|sources| - 1]
  }

  /** `sources[j]` is the last of the sources that has `key`. */
  ghost predicate LastWith(sources: seq<map<string, Value>>, key: string, j: int)
  {
    0 <= j < |sources| && key in sources[j] && forall j' :: j < j' < |sources| ==> key !in sources[j']
  }

  /**
   * The merge keeps every key, adds every source key, and each key ends up with the value
   * of the last source that has it, or its old value when no source has it.
   */
  lemma {:induction false} MergedLastWins(target: map<string, Value>, sources: seq<map<string, Value>>, key: string)
    ensures key in Merged(target, sources) <==> key in target || exists j :: 0 <= j < |sources| && key in sources[j]
    ensures (forall j :: 0 <= j < |sources| ==> key !in sources[j]) && key in target ==>
      Merged(target, sources)[key] == target[key]
    ensures forall j :: LastWith(sources, key, j) ==> Merged(target, sources)[key] == sources[j][key]
  {
    if sources != [] {
      var last := |sources| - 1;
      MergedLastWins(target, sources[..last], key);
      if key !in Merged(target, sources) {
        forall j | 0 <= j < |sources|
          ensures key !in sources[j]
        {
          if j < last {
            assert sources[..last][j] == sources[j];
          }
        }
      }
      forall j | LastWith(sources, key, j)
        ensures Merged(target, sources)[key] == sources[j][key]
      {
        if j < last {
          assert sources[..last][j] == sources[j];
          forall j' | j < j' < last
            ensures key !in sources[..last][j']
          {
            assert sources[..last][j'] == sources[j'];
          }
        }
      }
      if key in Merged(target, sources) && key !in target && key !in sources[last] {
        var j :| 0 <= j < last && key in sources[..last][j];
        assert sources[..last][j] == sources[j];
      }
    }
  }

  /**
   * `extend(obj, ...sources)`: for each source in turn, copy each of its own properties
   * onto `obj`, overwriting; then return `obj` itself.
   */
  method Extend(obj: JsObject, sources: seq<map<string, Value>>) returns (r: JsObject)
    modifies obj
    ensures r == obj
    ensures obj.props == Merged(old(obj.props), sources)
  {
    var i := 0;
    while i < |sources|
      invariant 0 <= i <= |sources|
      invariant obj.props == Merged(old(obj.props), sources[..i])
    {
      var source := sources[i];
      var keys := source.Keys;
      ghost var done: set<string> := {};
      while keys != {}
        invariant keys + done == source.Keys && keys !! done
        invariant obj.props == Merged(old(obj.props), sources[..i]) + (map k | k in done :: source[k])
        decreases keys
      {
        var prop :| prop in keys;
        obj.props := obj.props[prop := source[prop]];
        keys := keys - {prop};
        done := done + {prop};
      }
      assert (map k | k in done :: source[k]) == source;
      assert sources[..i + 1][..i] == sources[..i];
      i := i + 1;
    }
    assert sources[..i] == sources;
    r := obj;
  }
}
