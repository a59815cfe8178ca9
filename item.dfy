/** The asset path of an Item: the model name with an extension appended, loaded
    from /models/. */
module Item {

  /** String.prototype.endsWith. */
  predicate EndsWith(s: string, suffix: string)
  {
    |suffix| <= |s| && s[|s| - |suffix|..] == suffix
  }

  /** path: model + ".glb" when model already ends with ".glb" (so the
      extension is doubled), else model + ".glft". */
  function Path(model: string): (p: string)
    ensures model <= p
    ensures |p| == |model| + 4 || |p| == |model| + 5
  {
    if EndsWith(model, ".glb") then model + ".glb" else model + ".glft"
  }

  /** The URL handed to the loader. */
  function Url(model: string): (u: string)
    ensures "/models/" <= u && |u| == 8 + |Path(model)|
    ensures model <= u[8..]
  {
    "/models/" + Path(model)
  }

  /** A model already ending in ".glb" gets a second ".glb". */
  lemma GlbIsDoubled(model: string)
    requires EndsWith(model, ".glb")
    ensures Path(model) == model + ".glb"
    ensures EndsWith(Path(model), ".glb.glb")
  {
    var p := Path(model);
    assert p[|p| - 8..] == model[|model| - 4..] + ".glb";
  }

  /** Any other model gets ".glft", including names ending in ".gltf". */
  lemma OthersGetGlft(model: string)
    requires !EndsWith(model, ".glb")
    ensures Path(model) == model + ".glft"
    ensures EndsWith(Path(model), ".glft")
  {
    var p := Path(model);
    assert p[|p| - 5..] == ".glft";
  }

  /** No model is ever mapped to a ".gltf" path. */
  lemma NeverGltf(model: string)
    ensures !EndsWith(Path(model), ".gltf")
  {
    LastTwo(model);
  }

  /** The last two characters of a path: "lb" after ".glb", "ft" after ".glft". */
  lemma LastTwo(model: string)
    ensures var p := Path(model);
      p[|p| - 1] == (if EndsWith(model, ".glb") then 'b' else 't') &&
      p[|p| - 2] == (if EndsWith(model, ".glb") then 'l' else 'f')
  {
  }

  /** Different models give different paths. */
  lemma PathInjective(a: string, b: string)
    requires Path(a) == Path(b)
    ensures a == b
  {
    LastTwo(a);
    LastTwo(b);
    var p := Path(a);
    assert EndsWith(a, ".glb") == EndsWith(b, ".glb");
    if EndsWith(a, ".glb") {
      assert a == p[..|p| - 4] == b;
    } else {
      assert a == p[..|p| - 5] == b;
    }
  }

  /** With the default model "" the loader is asked for "/models/.glft". */
  lemma DefaultUrl()
    ensures Url("") == "/models/.glft"
  {
    assert !EndsWith("", ".glb");
  }
}
