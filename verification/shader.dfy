/** The shader manager seen from the scene manager: a sink of named uniform
    writes against the linked program, or no program at all (a null pointer). */
module Shader {

  /** Single-precision vectors. The scene manager only copies these values
      into uniforms and never computes with them, so `real` stands in for `float`. */
  datatype Vec2 = Vec2(u: real, v: real)
  datatype Vec3 = Vec3(x: real, y: real, z: real)
  datatype Vec4 = Vec4(r: real, g: real, b: real, a: real)

  /** The inputs of one model-matrix composition. The matrix arithmetic is
      not modelled; the uniform records what it was composed from. */
  datatype ModelTransform = ModelTransform(
    scale: Vec3,
    xRotationDegrees: real,
    yRotationDegrees: real,
    zRotationDegrees: real,
    position: Vec3)

  datatype UniformValue =
    | IntValue(i: int)
    | BoolValue(b: bool)
    | FloatValue(f: real)
    | Vec2Value(v2: Vec2)
    | Vec3Value(v3: Vec3)
    | Vec4Value(v4: Vec4)
    | Sampler2DValue(textureUnit: int)
    | Mat4Value(transform: ModelTransform)

  /** The uniforms of the linked program that the scene manager writes. */
  datatype UniformName =
    | Model
    | ObjectColor
    | ObjectTexture
    | UseTexture
    | UVScale
    | MaterialAmbientColor
    | MaterialAmbientStrength
    | MaterialDiffuseColor
    | MaterialSpecularColor
    | MaterialShininess

  /** The name under which the program declares each uniform. */
  function NameText(n: UniformName): string
  {
    match n
    case Model => "model"
    case ObjectColor => "objectColor"
    case ObjectTexture => "objectTexture"
    case UseTexture => "bUseTexture"
    case UVScale => "UVscale"
    case MaterialAmbientColor => "material.ambientColor"
    case MaterialAmbientStrength => "material.ambientStrength"
    case MaterialDiffuseColor => "material.diffuseColor"
    case MaterialSpecularColor => "material.specularColor"
    case MaterialShininess => "material.shininess"
  }

  datatype UniformWrite = UniformWrite(name: UniformName, value: UniformValue)

  /** `NullShader` is the null `ShaderManager*`; a program carries every
      uniform write made through it, oldest first. */
  datatype ShaderManager = NullShader | ShaderProgram(writes: seq<UniformWrite>)

  /** A uniform set through `setIntValue` from a C++ `bool`. */
  function IntOfBool(b: bool): int
  {
    if b then 1 else 0
  }

  /** Uniform `name` holds `v` in the state `m`. */
  predicate Has(m: map<UniformName, UniformValue>, name: UniformName, v: UniformValue)
  {
    name in m && m[name] == v
  }

  /** Whether the driver performs a uniform write. Loading a sampler with a
      unit below zero raises GL_INVALID_VALUE (section 7.6.1 of the OpenGL 4.6
      core profile specification), and a command that raises an error has no
      effect, so the uniform keeps what it held. The upper bound of that check,
      GL_MAX_COMBINED_TEXTURE_IMAGE_UNITS, is not modelled: no write here
      exceeds the 16 texture slots. */
  predicate DriverAccepts(v: UniformValue)
  {
    !(v.Sampler2DValue? && v.textureUnit < 0)
  }

  /** The state the program keeps after the writes made through the manager:
      the last accepted write to a name wins, and a rejected write changes nothing. */
  function Current(writes: seq<UniformWrite>): map<UniformName, UniformValue>
    decreases |writes|
  {
    if |writes| == 0 then map[]
    else
      var last := writes[|writes| - 1];
      var prefix := writes[..|writes| - 1];
      if DriverAccepts(last.value) then Current(prefix)[last.name := last.value]
      else Current(prefix)
  }

  /** A uniform has a value exactly when some accepted write named it. */
  lemma {:induction false} CurrentHoldsWrittenNames(writes: seq<UniformWrite>, n: UniformName)
    ensures n in Current(writes) <==>
      exists i :: 0 <= i < |writes| && writes[i].name == n && DriverAccepts(writes[i].value)
    decreases |writes|
  {
    if |writes| > 0 {
      var k := |writes| - 1;
      var prefix := writes[..k];
      CurrentHoldsWrittenNames(prefix, n);
      if n in Current(prefix) {
        var i :| 0 <= i < |prefix| && prefix[i].name == n && DriverAccepts(prefix[i].value);
        assert writes[i].name == n && DriverAccepts(writes[i].value);
      }
      if exists i :: 0 <= i < k && writes[i].name == n && DriverAccepts(writes[i].value) {
        var i :| 0 <= i < k && writes[i].name == n && DriverAccepts(writes[i].value);
        assert prefix[i].name == n && DriverAccepts(prefix[i].value);
      }
    }
  }

  /** Write `i` is the last accepted write to uniform `n` in `writes`. */
  predicate IsLastWrite(writes: seq<UniformWrite>, n: UniformName, i: int)
  {
    && 0 <= i < |writes|
    && writes[i].name == n
    && DriverAccepts(writes[i].value)
    && forall j :: i < j < |writes| ==> writes[j].name != n || !DriverAccepts(writes[j].value)
  }

  /** Last accepted write wins: the uniform holds exactly the value of its
      last accepted write, whatever rejected writes follow it. */
  lemma {:induction false} CurrentIsLastWrite(writes: seq<UniformWrite>, n: UniformName, i: int)
    requires IsLastWrite(writes, n, i)
    ensures Has(Current(writes), n, writes[i].value)
    decreases |writes|
  {
    var k := |writes| - 1;
    if i < k {
      var prefix := writes[..k];
      assert writes[k].name != n || !DriverAccepts(writes[k].value);
      assert IsLastWrite(prefix, n, i);
      CurrentIsLastWrite(prefix, n, i);
    }
  }

  /** Two uniform states agree on every name outside `names`. */
  ghost predicate SameExcept(m1: map<UniformName, UniformValue>, m2: map<UniformName, UniformValue>, names: set<UniformName>)
  {
    forall n :: n !in names ==> (n in m1 <==> n in m2) && (n in m1 ==> m1[n] == m2[n])
  }

  /** One call of a `ShaderManager::set*Value` member on a non-null manager.
      The write is always made; the driver applies it only when it accepts it. */
  function Set(sm: ShaderManager, name: UniformName, value: UniformValue): (r: ShaderManager)
    requires sm.ShaderProgram?
    ensures r.ShaderProgram?
    ensures DriverAccepts(value) ==> Current(r.writes) == Current(sm.writes)[name := value]
    ensures !DriverAccepts(value) ==> Current(r.writes) == Current(sm.writes)
  {
    var r := ShaderProgram(sm.writes + [UniformWrite(name, value)]);
    assert r.writes[..|r.writes| - 1] == sm.writes;
    r
  }

  /** The ten uniform names are ten distinct strings of the program. */
  lemma NameTextInjective(a: UniformName, b: UniformName)
    ensures NameText(a) == NameText(b) ==> a == b
  {
  }
}
