/** The scene manager's material list: tagged property sets in the order
    they were added, looked up by a first-match scan on the tag. */
module Materials {
  import opened Shader

  datatype Material = Material(
    tag: string,
    ambientColor: Vec3,
    ambientStrength: real,
    diffuseColor: Vec3,
    specularColor: Vec3,
    shininess: real)

  /** `out` carries the five lighting properties of `source` and keeps its own tag. */
  predicate CopiedInto(source: Material, before: Material, out: Material)
  {
    && out.tag == before.tag
    && out.ambientColor == source.ambientColor
    && out.ambientStrength == source.ambientStrength
    && out.diffuseColor == source.diffuseColor
    && out.specularColor == source.specularColor
    && out.shininess == source.shininess
  }

  /** No entry of the list carries `tag`. */
  predicate NoMatch(materials: seq<Material>, tag: string)
  {
    forall j :: 0 <= j < |materials| ==> materials[j].tag != tag
  }

  /** Index `i` is the first entry carrying `tag`. */
  predicate IsFirstMaterial(materials: seq<Material>, tag: string, i: int)
  {
    && 0 <= i < |materials|
    && materials[i].tag == tag
    && forall j :: 0 <= j < i ==> materials[j].tag != tag
  }

  /** The first index at or after `i` whose entry carries `tag`, or -1. */
  function IndexFrom(materials: seq<Material>, tag: string, i: nat): (r: int)
    requires i <= |materials|
    ensures r == -1 || i <= r < |materials|
    ensures r == -1 <==> forall j :: i <= j < |materials| ==> materials[j].tag != tag
    ensures r != -1 ==> materials[r].tag == tag && forall j :: i <= j < r ==> materials[j].tag != tag
    decreases |materials| - i
  {
    if i == |materials| then -1
    else if materials[i].tag == tag then i
    else IndexFrom(materials, tag, i + 1)
  }

  /** The first entry carrying `tag`, or -1 when none does. */
  function MaterialIndex(materials: seq<Material>, tag: string): (r: int)
    ensures r == -1 <==> NoMatch(materials, tag)
    ensures r != -1 ==> IsFirstMaterial(materials, tag, r)
  {
    IndexFrom(materials, tag, 0)
  }

  /** The five properties of `source` written over `before`, keeping its tag. */
  function CopyProperties(source: Material, before: Material): (out: Material)
    ensures CopiedInto(source, before, out)
  {
    before.(ambientColor := source.ambientColor,
            ambientStrength := source.ambientStrength,
            diffuseColor := source.diffuseColor,
            specularColor := source.specularColor,
            shininess := source.shininess)
  }

  /** What `FindMaterial` leaves in its in/out parameter, as a value. */
  function LookupInto(materials: seq<Material>, tag: string, before: Material): (r: Material)
    ensures NoMatch(materials, tag) ==> r == before
    ensures forall i :: IsFirstMaterial(materials, tag, i) ==> CopiedInto(materials[i], before, r)
  {
    var i := MaterialIndex(materials, tag);
    if i == -1 then before else CopyProperties(materials[i], before)
  }

  /** `FindMaterial`. `material` is the caller's in/out parameter on entry.
      The answer is false only for an empty list; on a non-empty list with
      no entry carrying `tag` it is still true and the parameter is left as it was. */
  method FindMaterial(materials: seq<Material>, tag: string, material: Material) returns (found: bool, out: Material)
    ensures found <==> |materials| > 0
    ensures NoMatch(materials, tag) ==> out == material
    ensures forall i :: IsFirstMaterial(materials, tag, i) ==> CopiedInto(materials[i], material, out)
    ensures out == LookupInto(materials, tag, material)
  {
    if |materials| == 0 {
      return false, material;
    }
    out := material;
    var index := 0;
    var matched := false;
    while index < |materials| && !matched
      invariant 0 <= index <= |materials|
      invariant forall j :: 0 <= j < index ==> materials[j].tag != tag
      invariant matched ==> index < |materials| && materials[index].tag == tag
      invariant matched ==> out == CopyProperties(materials[index], material)
      invariant !matched ==> out == material
      decreases |materials| - index, if matched then 0 else 1
    {
      if materials[index].tag == tag {
        matched := true;
        out := CopyProperties(materials[index], material);
      } else {
        index := index + 1;
      }
    }
    found := true;
    if matched {
      assert IsFirstMaterial(materials, tag, index);
    }
  }

  /** `push_back` on the material list. */
  function AddMaterial(materials: seq<Material>, m: Material): (r: seq<Material>)
    ensures |r| == |materials| + 1 && r[|materials|] == m
    ensures forall i :: 0 <= i < |materials| ==> r[i] == materials[i]
  {
    materials + [m]
  }

  /** A lookup has at most one first match. */
  lemma FirstMaterialUnique(materials: seq<Material>, tag: string, i: int, k: int)
    requires IsFirstMaterial(materials, tag, i) && IsFirstMaterial(materials, tag, k)
    ensures i == k
  {
  }

  /** A material added under a tag not yet in the list is found under that
      tag; one added under a tag already present is never found, because
      the earlier entry shadows it. */
  lemma AddedMaterialLookup(materials: seq<Material>, m: Material, before: Material)
    ensures NoMatch(materials, m.tag) ==>
      CopiedInto(m, before, LookupInto(AddMaterial(materials, m), m.tag, before))
    ensures !NoMatch(materials, m.tag) ==>
      LookupInto(AddMaterial(materials, m), m.tag, before) == LookupInto(materials, m.tag, before)
  {
  }

  /** Adding a material does not change how any other tag resolves. */
  lemma AddKeepsOtherTags(materials: seq<Material>, m: Material, tag: string, before: Material)
    requires tag != m.tag
    ensures LookupInto(AddMaterial(materials, m), tag, before) == LookupInto(materials, tag, before)
  {
  }
}
