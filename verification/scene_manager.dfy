/** The scene manager's uniform bridge: the calls that push per-draw state
    into the shader program, built on the texture registry and the material list. */
module SceneManager {
  import Gl
  import opened Shader
  import opened Textures
  import opened Materials

  const MaterialNames := {MaterialAmbientColor, MaterialAmbientStrength, MaterialDiffuseColor, MaterialSpecularColor, MaterialShininess}

  /** The bookkeeping state of one scene manager. */
  datatype Scene = Scene(shader: ShaderManager, textures: Registry, materials: seq<Material>) {
    predicate Valid()
    {
      textures.Valid()
    }
  }

  /** The shader program behind `s` holds `v` in uniform `name`: the last
      value written to it through the manager that the driver accepted. */
  ghost predicate Holds(s: Scene, name: UniformName, v: UniformValue)
  {
    s.shader.ShaderProgram? && Has(Current(s.shader.writes), name, v)
  }

  /** The most recent write made through the manager of `s`, whether or not
      the driver accepted it. */
  ghost predicate LastSent(s: Scene, name: UniformName, v: UniformValue)
  {
    && s.shader.ShaderProgram?
    && |s.shader.writes| > 0
    && s.shader.writes[|s.shader.writes| - 1] == UniformWrite(name, v)
  }

  /** Both scenes have shader programs, and uniform `name` is in the same
      state in both: unset in both, or holding the same value. */
  ghost predicate Kept(s: Scene, r: Scene, name: UniformName)
  {
    && s.shader.ShaderProgram? && r.shader.ShaderProgram?
    && (name in Current(s.shader.writes) <==> name in Current(r.shader.writes))
    && (name in Current(s.shader.writes) ==> Current(s.shader.writes)[name] == Current(r.shader.writes)[name])
  }

  /** Both scenes have shader programs whose uniforms agree outside `names`. */
  ghost predicate OnlyWrote(s: Scene, r: Scene, names: set<UniformName>)
  {
    s.shader.ShaderProgram? && r.shader.ShaderProgram?
    && SameExcept(Current(s.shader.writes), Current(r.shader.writes), names)
  }

  /** The constructor: keeps the shader manager, fills the texture table
      with placeholders and starts with no materials. */
  method NewScene(shader: ShaderManager) returns (s: Scene)
    ensures s.Valid() && s.shader == shader && s.materials == []
    ensures s.textures.loaded == 0
    ensures forall tag :: SlotOf(s.textures, tag) == NotFound
  {
    var textures := Construct();
    s := Scene(shader, textures, []);
  }

  /** `SetTransformations`: the composed model matrix goes to `model`. */
  function SetTransformations(s: Scene, transform: ModelTransform): (r: Scene)
    ensures r.textures == s.textures && r.materials == s.materials
    ensures s.shader.NullShader? ==> r == s
    ensures s.shader.ShaderProgram? ==>
      Holds(r, Model, Mat4Value(transform)) && OnlyWrote(s, r, {Model})
  {
    if s.shader.NullShader? then s
    else s.(shader := Set(s.shader, Model, Mat4Value(transform)))
  }

  /** `SetShaderColor`: turns texturing off and selects a flat colour. */
  function SetShaderColor(s: Scene, color: Vec4): (r: Scene)
    ensures r.textures == s.textures && r.materials == s.materials
    ensures s.shader.NullShader? ==> r == s
    ensures s.shader.ShaderProgram? ==>
      && Holds(r, UseTexture, IntValue(0))
      && Holds(r, ObjectColor, Vec4Value(color))
      && OnlyWrote(s, r, {UseTexture, ObjectColor})
  {
    if s.shader.NullShader? then s
    else
      var flagged := Set(s.shader, UseTexture, IntValue(IntOfBool(false)));
      s.(shader := Set(flagged, ObjectColor, Vec4Value(color)))
  }

  /** `SetShaderTexture`: turns texturing on and passes the sampler slot the
      tag resolves to, which is -1 for a tag that is not loaded. The driver
      rejects -1, so `objectTexture` then keeps the unit an earlier draw set. */
  function SetShaderTexture(s: Scene, tag: string): (r: Scene)
    requires s.Valid()
    ensures r.textures == s.textures && r.materials == s.materials
    ensures s.shader.NullShader? ==> r == s
    ensures s.shader.ShaderProgram? ==>
      && Holds(r, UseTexture, IntValue(1))
      && (forall slot :: IsFirstMatch(s.textures, tag, slot) ==> LastSent(r, ObjectTexture, Sampler2DValue(slot)))
      && (forall slot :: IsFirstMatch(s.textures, tag, slot) && slot != NotFound ==>
            Holds(r, ObjectTexture, Sampler2DValue(slot)))
      && (IsFirstMatch(s.textures, tag, NotFound) ==>
            Kept(s, r, ObjectTexture))
      && OnlyWrote(s, r, {UseTexture, ObjectTexture})
  {
    if s.shader.NullShader? then s
    else
      var flagged := Set(s.shader, UseTexture, IntValue(IntOfBool(true)));
      var slot := SlotOf(s.textures, tag);
      s.(shader := Set(flagged, ObjectTexture, Sampler2DValue(slot)))
  }

  /** `SetTextureUVScale`: the texture coordinate scale goes to `UVscale`. */
  function SetTextureUVScale(s: Scene, u: real, v: real): (r: Scene)
    ensures r.textures == s.textures && r.materials == s.materials
    ensures s.shader.NullShader? ==> r == s
    ensures s.shader.ShaderProgram? ==>
      Holds(r, UVScale, Vec2Value(Vec2(u, v))) && OnlyWrote(s, r, {UVScale})
  {
    if s.shader.NullShader? then s
    else s.(shader := Set(s.shader, UVScale, Vec2Value(Vec2(u, v))))
  }

  /** The five material uniforms hold the properties of `m`. */
  ghost predicate MaterialWritten(r: Scene, m: Material)
  {
    && Holds(r, MaterialAmbientColor, Vec3Value(m.ambientColor))
    && Holds(r, MaterialAmbientStrength, FloatValue(m.ambientStrength))
    && Holds(r, MaterialDiffuseColor, Vec3Value(m.diffuseColor))
    && Holds(r, MaterialSpecularColor, Vec3Value(m.specularColor))
    && Holds(r, MaterialShininess, FloatValue(m.shininess))
  }

  /** The uniform state `before` with the five material uniforms set to the
      properties of `m`. */
  function MaterialState(before: map<UniformName, UniformValue>, m: Material): (after: map<UniformName, UniformValue>)
    ensures SameExcept(before, after, MaterialNames)
    ensures Has(after, MaterialAmbientColor, Vec3Value(m.ambientColor))
    ensures Has(after, MaterialAmbientStrength, FloatValue(m.ambientStrength))
    ensures Has(after, MaterialDiffuseColor, Vec3Value(m.diffuseColor))
    ensures Has(after, MaterialSpecularColor, Vec3Value(m.specularColor))
    ensures Has(after, MaterialShininess, FloatValue(m.shininess))
  {
    before
      [MaterialAmbientColor := Vec3Value(m.ambientColor)]
      [MaterialAmbientStrength := FloatValue(m.ambientStrength)]
      [MaterialDiffuseColor := Vec3Value(m.diffuseColor)]
      [MaterialSpecularColor := Vec3Value(m.specularColor)]
      [MaterialShininess := FloatValue(m.shininess)]
  }

  /** The five material uniform writes, in the source's order. */
  function WriteMaterial(sm: ShaderManager, m: Material): (r: ShaderManager)
    requires sm.ShaderProgram?
    ensures r.ShaderProgram?
    ensures SameExcept(Current(sm.writes), Current(r.writes), MaterialNames)
    ensures Has(Current(r.writes), MaterialAmbientColor, Vec3Value(m.ambientColor))
    ensures Has(Current(r.writes), MaterialAmbientStrength, FloatValue(m.ambientStrength))
    ensures Has(Current(r.writes), MaterialDiffuseColor, Vec3Value(m.diffuseColor))
    ensures Has(Current(r.writes), MaterialSpecularColor, Vec3Value(m.specularColor))
    ensures Has(Current(r.writes), MaterialShininess, FloatValue(m.shininess))
  {
    var w1 := Set(sm, MaterialAmbientColor, Vec3Value(m.ambientColor));
    var w2 := Set(w1, MaterialAmbientStrength, FloatValue(m.ambientStrength));
    var w3 := Set(w2, MaterialDiffuseColor, Vec3Value(m.diffuseColor));
    var w4 := Set(w3, MaterialSpecularColor, Vec3Value(m.specularColor));
    var w5 := Set(w4, MaterialShininess, FloatValue(m.shininess));
    assert Current(w5.writes) == MaterialState(Current(sm.writes), m);
    w5
  }

  /** `SetShaderMaterial`. `scratch` is whatever the uninitialised local
      material holds before the lookup. The manager is dereferenced without
      a null check whenever the list is non-empty. With an empty list nothing
      is written; otherwise the lookup always reports success, so the five
      uniforms are written from the first entry carrying `tag`, or from
      `scratch` when no entry does. */
  function SetShaderMaterial(s: Scene, tag: string, scratch: Material): (r: Scene)
    requires |s.materials| > 0 ==> s.shader.ShaderProgram?
    ensures r.textures == s.textures && r.materials == s.materials
    ensures |s.materials| == 0 ==> r == s
    ensures |s.materials| > 0 ==> OnlyWrote(s, r, MaterialNames)
    ensures |s.materials| > 0 && NoMatch(s.materials, tag) ==> MaterialWritten(r, scratch)
    ensures forall i :: IsFirstMaterial(s.materials, tag, i) ==> MaterialWritten(r, s.materials[i])
  {
    if |s.materials| == 0 then s
    else
      // FindMaterial answers true on a non-empty list, so the writes always happen
      var m := LookupInto(s.materials, tag, scratch);
      var r := s.(shader := WriteMaterial(s.shader, m));
      WrittenFromLookup(r, s.materials, tag, scratch);
      r
  }

  /** Writing the looked-up material writes the first match's properties,
      or the uninitialised local's when no entry carries the tag. */
  lemma WrittenFromLookup(r: Scene, materials: seq<Material>, tag: string, scratch: Material)
    requires MaterialWritten(r, LookupInto(materials, tag, scratch))
    ensures NoMatch(materials, tag) ==> MaterialWritten(r, scratch)
    ensures forall i :: IsFirstMaterial(materials, tag, i) ==> MaterialWritten(r, materials[i])
  {
  }

  /** A tag no loaded texture carries passes -1, which leaves the sampler as
      it was; once the texture is loaded into the next free slot, the same
      call selects that slot. */
  lemma SelectLoadedTexture(s: Scene, tag: string, outcome: DecodeOutcome, name: Gl.uint32)
    requires s.Valid() && s.shader.ShaderProgram?
    requires RegistrationFits(s.textures, outcome) && Registers(outcome)
    ensures SlotOf(s.textures, tag) == NotFound ==>
      && LastSent(SetShaderTexture(s, tag), ObjectTexture, Sampler2DValue(NotFound))
      && Kept(s, SetShaderTexture(s, tag), ObjectTexture)
      && Holds(SetShaderTexture(s.(textures := CreateGLTexture(s.textures, tag, outcome, name).registry), tag),
               ObjectTexture, Sampler2DValue(s.textures.loaded))
  {
  }

  /** One per-draw call of the scene script. */
  datatype DrawCall =
    | TransformCall(transform: ModelTransform)
    | ColorCall(color: Vec4)
    | TextureCall(textureTag: string)
    | UVScaleCall(u: real, v: real)
    | MaterialCall(materialTag: string, scratch: Material)

  /** The render mode a draw uses: a flat colour or a texture; `Unchanged`
      stands for a call that selects neither. */
  datatype Mode = Unchanged | FlatColor | Textured

  /** The render mode one call selects, if it selects one. */
  function ModeOf(call: DrawCall): Mode
  {
    match call
    case ColorCall(_) => FlatColor
    case TextureCall(_) => Textured
    case _ => Unchanged
  }

  /** The texturing flag of `r` is what selecting `mode` last leaves
      behind, starting from `s`: 0 for a flat colour, 1 for a texture, and the
      flag of `s` when no mode was selected. */
  ghost predicate FlagFor(s: Scene, r: Scene, mode: Mode)
  {
    match mode
    case FlatColor => Holds(r, UseTexture, IntValue(0))
    case Textured => Holds(r, UseTexture, IntValue(1))
    case Unchanged => Kept(s, r, UseTexture)
  }

  /** One draw-state call. */
  function ApplyCall(s: Scene, call: DrawCall): (r: Scene)
    requires s.Valid() && s.shader.ShaderProgram?
    ensures r.Valid() && r.shader.ShaderProgram?
    ensures r.textures == s.textures && r.materials == s.materials
  {
    match call
    case TransformCall(t) => SetTransformations(s, t)
    case ColorCall(c) => SetShaderColor(s, c)
    case TextureCall(tag) => SetShaderTexture(s, tag)
    case UVScaleCall(u, v) => SetTextureUVScale(s, u, v)
    case MaterialCall(tag, scratch) => SetShaderMaterial(s, tag, scratch)
  }

  /** One call sets the texturing flag according to the mode it selects,
      and leaves it alone when it selects none. */
  lemma ApplyCallFlag(s: Scene, call: DrawCall)
    requires s.Valid() && s.shader.ShaderProgram?
    ensures FlagFor(s, ApplyCall(s, call), ModeOf(call))
  {
    match call
    case ColorCall(c) => ColorCallFlag(s, c);
    case TextureCall(tag) => TextureCallFlag(s, tag);
    case TransformCall(t) => TransformCallFlag(s, t);
    case UVScaleCall(u, v) => UVScaleCallFlag(s, u, v);
    case MaterialCall(tag, scratch) => MaterialCallFlag(s, tag, scratch);
  }

  /** The flag effect of each kind of call, one lemma per kind. */
  lemma ColorCallFlag(s: Scene, c: Vec4)
    requires s.Valid() && s.shader.ShaderProgram?
    ensures FlagFor(s, ApplyCall(s, ColorCall(c)), FlatColor)
  {
    assert ApplyCall(s, ColorCall(c)) == SetShaderColor(s, c);
  }

  lemma TextureCallFlag(s: Scene, tag: string)
    requires s.Valid() && s.shader.ShaderProgram?
    ensures FlagFor(s, ApplyCall(s, TextureCall(tag)), Textured)
  {
    assert ApplyCall(s, TextureCall(tag)) == SetShaderTexture(s, tag);
  }

  lemma TransformCallFlag(s: Scene, t: ModelTransform)
    requires s.Valid() && s.shader.ShaderProgram?
    ensures FlagFor(s, ApplyCall(s, TransformCall(t)), Unchanged)
  {
    FlagOutsideWrites(s, SetTransformations(s, t), {Model});
  }

  lemma UVScaleCallFlag(s: Scene, u: real, v: real)
    requires s.Valid() && s.shader.ShaderProgram?
    ensures FlagFor(s, ApplyCall(s, UVScaleCall(u, v)), Unchanged)
  {
    FlagOutsideWrites(s, SetTextureUVScale(s, u, v), {UVScale});
  }

  lemma MaterialCallFlag(s: Scene, tag: string, scratch: Material)
    requires s.Valid() && s.shader.ShaderProgram?
    ensures FlagFor(s, ApplyCall(s, MaterialCall(tag, scratch)), Unchanged)
  {
    MaterialCallIsSetter(s, tag, scratch);
    MaterialKeepsFlag(s, tag, scratch);
  }

  /** A material draw call is `SetShaderMaterial`. */
  lemma MaterialCallIsSetter(s: Scene, tag: string, scratch: Material)
    requires s.Valid() && s.shader.ShaderProgram?
    ensures ApplyCall(s, MaterialCall(tag, scratch)) == SetShaderMaterial(s, tag, scratch)
  {
  }

  /** `SetShaderMaterial` never touches the texturing flag, whether or not
      the list is empty. */
  lemma MaterialKeepsFlag(s: Scene, tag: string, scratch: Material)
    requires s.shader.ShaderProgram?
    ensures Kept(s, SetShaderMaterial(s, tag, scratch), UseTexture)
  {
    if |s.materials| > 0 {
      FlagOutsideWrites(s, SetShaderMaterial(s, tag, scratch), MaterialNames);
    }
  }

  /** The scene after a sequence of draw calls, in order. */
  function Replay(s: Scene, calls: seq<DrawCall>): (r: Scene)
    requires s.Valid() && s.shader.ShaderProgram?
    ensures r.Valid() && r.shader.ShaderProgram?
    ensures r.textures == s.textures && r.materials == s.materials
    decreases |calls|
  {
    if |calls| == 0 then s else Replay(ApplyCall(s, calls[0]), calls[1..])
  }

  /** The mode selected by the last colour or texture call of `calls`. */
  function LastMode(calls: seq<DrawCall>): Mode
    decreases |calls|
  {
    if |calls| == 0 then Unchanged
    else
      var rest := LastMode(calls[1..]);
      if rest != Unchanged then rest else ModeOf(calls[0])
  }

  /** A call that writes only names other than `bUseTexture` leaves the flag as it was. */
  lemma FlagOutsideWrites(s: Scene, r: Scene, names: set<UniformName>)
    requires OnlyWrote(s, r, names) && UseTexture !in names
    ensures Kept(s, r, UseTexture)
  {
  }

  /** Whatever calls come between, the texturing flag a draw sees is the one
      set by the last colour or texture call; calls of neither kind leave the
      flag as it was. Colour and texture are thereby exclusive modes. */
  lemma {:induction false} FlagFollowsLastModeCall(s: Scene, calls: seq<DrawCall>)
    requires s.Valid() && s.shader.ShaderProgram?
    ensures LastMode(calls) == FlatColor ==> Holds(Replay(s, calls), UseTexture, IntValue(0))
    ensures LastMode(calls) == Textured ==> Holds(Replay(s, calls), UseTexture, IntValue(1))
    ensures LastMode(calls) == Unchanged ==> Kept(s, Replay(s, calls), UseTexture)
    decreases |calls|
  {
    if |calls| > 0 {
      var next := ApplyCall(s, calls[0]);
      ApplyCallFlag(s, calls[0]);
      FlagFollowsLastModeCall(next, calls[1..]);
    }
  }
}
