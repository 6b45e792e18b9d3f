# SceneManager bookkeeping, modelled in Dafny

This project models the resource and uniform bookkeeping of the
`SceneManager` class in `Source/SceneManager.cpp`. The class renders a static
desk scene with OpenGL. The model covers three parts of it:

- **Texture registry.** A fixed table of 16 `{tag, ID}` entries plus a count
  of loaded textures. The constructor fills the table with the placeholder
  `{"/0", -1}`. `CreateGLTexture` appends an entry only when the image decodes
  with 3 or 4 channels. `FindTextureSlot` and `FindTextureID` are first-match
  scans over the loaded entries only. `BindGLTextures` binds texture unit *i*
  to entry *i*. `DestroyGLTextures` deletes each loaded ID and leaves the
  count alone.
- **Material list.** `FindMaterial` is a first-match scan that copies five
  lighting properties, not the tag. It answers `false` only for an empty
  list. On a non-empty list with no matching tag it still answers `true` and
  leaves its output untouched. `SetShaderMaterial` writes the five material
  uniforms whenever the list is non-empty. When no tag matches, the values
  written are those of an uninitialised local.
- **Uniform bridge.** `SetShaderColor`, `SetShaderTexture`,
  `SetTextureUVScale` and `SetTransformations` write named uniforms through
  the shader manager. A null shader manager makes them write nothing.
  `SetShaderColor` clears `bUseTexture` and `SetShaderTexture` sets it, so
  the last of the two calls before a draw decides the mode.
  `SetShaderTexture` forwards the slot lookup unchanged, including its -1.
  The driver rejects a sampler unit below zero, so for a tag that is not
  loaded `objectTexture` keeps the unit an earlier draw selected.

The foreign side is abstracted as follows:

- The shader manager is either `NullShader` or a log of the uniform writes
  made through it. The shader manager's own source is not part of this model.
  Each `set*Value` call is taken to load one uniform of the linked program
  with the matching `glUniform*` call.
- `DriverAccepts` says which writes the driver performs. Loading a sampler
  uniform with a unit below zero raises `GL_INVALID_VALUE` (section 7.6.1 of
  the OpenGL 4.6 core profile specification), and a call that raises an error
  has no effect.
- `Current` turns the log into the state the program keeps: the last
  accepted write to each uniform wins, and a rejected write changes nothing.
- Uniform names are an enumeration. `NameText` gives the string the program
  uses for each one.
- The OpenGL texture calls become a list of `GpuEvent`s.
- `Run` replays that list over a record of which texture name each texture
  unit has bound.
- The image decoder becomes an input `DecodeOutcome`: a failure, or success
  with a width, height and channel count.
- The texture name `glGenTextures` hands out becomes an input as well.

`SceneManager.h` is not part of this model. The model takes the `ID` field of
a texture entry to be a 32-bit unsigned GL name, because it is passed by
address to `glDeleteTextures`. Under that reading, the constructor's -1 is
stored as `0xFFFFFFFF`, and `FindTextureID` converts the stored name back to
an `int` (`Gl.AsInt32`). As a result, the ID lookup misses exactly when the
slot lookup misses only if no loaded texture has the name `0xFFFFFFFF`
(`Textures.IdMissesIffSlotMisses`).

The model keeps the following behaviour of the code as written:

- The code has no capacity check before the registration write at line 125.
  The model states the missing guard as a precondition of
  `Textures.CreateGLTexture` (`RegistrationFits`). It does not add a check.
- `DestroyGLTextures` does not empty the registry. A second call would delete
  the same names again.
- `FindMaterial` reports success on a non-empty list even when no tag matches.
- A decoded image with an unsupported channel count has already received a
  texture name and texture parameters. No `glDeleteTextures` follows, so that
  name is never released. The event log of `Textures.CreateGLTexture` shows
  this.

## Model

| member | source | states |
|---|---|---|
| `Gl.AsInt32` | Source/SceneManager.cpp:184 | reading a stored 32-bit name as `int` yields the unique value in [-2^31, 2^31) congruent to it, and -1 exactly for 0xFFFFFFFF |
| `Textures.Construct` | Source/SceneManager.cpp:40-45 | the constructor leaves all 16 entries as `{"/0", 0xFFFFFFFF}` and the count at 0 |
| `SceneManager.NewScene` | Source/SceneManager.cpp:34-47 | a new manager keeps its shader manager, has no materials, and resolves no tag to a slot |
| `Textures.CreateGLTexture` | Source/SceneManager.cpp:71-136 | returns true iff decoding succeeded with 3 or 4 channels; on success `{tag, name}` lands at index `count`, the count grows by one and every other entry is unchanged; on failure the registry is unchanged; a failed decode makes no driver call; no path deletes the generated name |
| `Textures.SlotFrom` | Source/SceneManager.cpp:206-215 | the scan from index i returns the first loaded index at or after i holding the tag, or -1 exactly when none does |
| `Textures.SlotOf` | Source/SceneManager.cpp:200-218 | a slot lookup returns a first-match answer, always within [-1, count) |
| `Textures.FindTextureSlot` | Source/SceneManager.cpp:200-218 | the source's loop returns the smallest loaded index holding the tag, or -1 when no loaded entry holds it |
| `Textures.FindTextureID` | Source/SceneManager.cpp:174-192 | the source's loop returns -1 when no loaded entry holds the tag, and otherwise the ID stored at the first matching slot, read as `int` |
| `Textures.FirstMatchUnique` | Source/SceneManager.cpp:180-189 | a tag lookup has exactly one first-match answer, so the loop and the reference definition agree |
| `Textures.IdMissesIffSlotMisses` | Source/SceneManager.cpp:174-218 | when no loaded name is 0xFFFFFFFF, the ID lookup answers -1 exactly when the slot lookup does |
| `Textures.LookupIgnoresUnloaded` | Source/SceneManager.cpp:180 | lookups read only the loaded prefix: registries that agree on it resolve every tag alike, whatever the placeholder entries hold |
| `Textures.LoadAll` | Source/SceneManager.cpp:393-401 | a sequence of loads that fits in the table keeps the registry valid, adds at most one entry per load, and leaves the entries already loaded as they were |
| `Textures.LoadsKeepUnusedTags` | Source/SceneManager.cpp:393-401 | a tag that no load of a sequence uses keeps its slot and its ID across the whole sequence |
| `Textures.PlaceholderNeverFound` | Source/SceneManager.cpp:40-45 | after the constructor and any loads, none of them under "/0", a lookup of "/0" gives -1 for slot and ID, although every unloaded entry carries that tag |
| `Textures.LoadedTagResolves` | Source/SceneManager.cpp:125-127 | after a successful load, a previously unknown tag resolves to slot `count` and to the new name; a tag already loaded keeps resolving to its earlier slot |
| `Textures.LoadKeepsOtherTags` | Source/SceneManager.cpp:125-127 | any load, successful or not, leaves the slot and ID of every other tag unchanged |
| `Textures.BindGLTextures` | Source/SceneManager.cpp:144-152 | the driver sees exactly `count` pairs, pair i selecting unit i and then binding entry i's ID, in order |
| `Textures.BoundAfter` | Source/SceneManager.cpp:146-151 | the bindings a pass over n entries leaves: units 0..n-1 hold the entries' IDs and every other unit keeps its binding |
| `Textures.BindPassEffect` | Source/SceneManager.cpp:146-151 | running the binding pass binds unit i to entry i's ID for every loaded i, leaves other units alone and leaves unit count-1 active |
| `Textures.BindTwiceIsBindOnce` | Source/SceneManager.cpp:146-151 | binding is idempotent: a second pass leaves the binding state as the first left it |
| `Textures.DestroyGLTextures` | Source/SceneManager.cpp:160-166 | deletes exactly the `count` loaded IDs, in order, and leaves the count and the entries as they were |
| `Materials.IndexFrom` | Source/SceneManager.cpp:235-250 | the scan from index i returns the first index at or after i whose tag matches, or -1 exactly when none does |
| `Materials.MaterialIndex` | Source/SceneManager.cpp:235-250 | the material lookup index is -1 iff no entry carries the tag, and otherwise the first entry that does |
| `Materials.LookupInto` | Source/SceneManager.cpp:235-250 | the lookup leaves its output as it was when no entry carries the tag, and otherwise copies the first match's five properties into it |
| `Materials.CopyProperties` | Source/SceneManager.cpp:240-244 | the output takes the five lighting properties of the matched entry and keeps its own tag |
| `Materials.FindMaterial` | Source/SceneManager.cpp:226-253 | answers true iff the list is non-empty; with no matching entry the output is exactly its input; otherwise the output carries the first match's five properties and its original tag |
| `Materials.FirstMaterialUnique` | Source/SceneManager.cpp:235-250 | a material lookup has at most one first match |
| `Materials.AddMaterial` | Source/SceneManager.cpp:420 | adding a material puts it at the end and keeps every earlier entry |
| `Materials.AddedMaterialLookup` | Source/SceneManager.cpp:235-250 | a material added under a new tag is found under it; one added under a tag already present is shadowed by the earlier entry |
| `Materials.AddKeepsOtherTags` | Source/SceneManager.cpp:235-250 | adding a material changes the lookup of no other tag |
| `Shader.CurrentHoldsWrittenNames` | Source/SceneManager.cpp:313-317 | a uniform has a value exactly when some write the driver accepted named it |
| `Shader.CurrentIsLastWrite` | Source/SceneManager.cpp:313-317 | a uniform holds the value of its last accepted write, whatever rejected writes follow, so state set for one draw persists into later draws until overwritten |
| `Shader.Set` | Source/SceneManager.cpp:315 | one write through the manager changes exactly that uniform when the driver accepts the value, and changes nothing when it rejects it |
| `Shader.NameTextInjective` | Source/SceneManager.cpp:22-25 | the program's uniform names are pairwise distinct strings, so a write to one uniform never reaches another |
| `SceneManager.SetTransformations` | Source/SceneManager.cpp:287-290 | with a program, `model` holds the requested transform and no other uniform changes; with a null manager nothing changes |
| `SceneManager.SetShaderColor` | Source/SceneManager.cpp:313-317 | with a program, `bUseTexture` holds 0 and `objectColor` the colour, and nothing else changes; with a null manager nothing changes |
| `SceneManager.SetShaderTexture` | Source/SceneManager.cpp:329-336 | with a program, `bUseTexture` holds 1, the last write passes the first-match slot of the tag (possibly -1), `objectTexture` holds that slot when it is loaded and keeps its earlier state when it is -1, and nothing else changes; with a null manager nothing changes |
| `SceneManager.SetTextureUVScale` | Source/SceneManager.cpp:347-350 | with a program, `UVscale` holds (u, v) and nothing else changes; with a null manager nothing changes |
| `SceneManager.WriteMaterial` | Source/SceneManager.cpp:370-374 | the five material uniforms hold the material's properties and no other uniform changes |
| `SceneManager.SetShaderMaterial` | Source/SceneManager.cpp:359-377 | with an empty list nothing is written; otherwise only the five material uniforms change, taking the first matching entry's properties, or the uninitialised local's when no entry matches |
| `SceneManager.SelectLoadedTexture` | Source/SceneManager.cpp:329-336 | an unknown tag passes sampler -1, which leaves `objectTexture` as it was; once loaded into the next slot the same call selects that slot |
| `SceneManager.ApplyCall` | Source/SceneManager.cpp:287-376 | any single draw-state call keeps the registry, the materials and the program |
| `SceneManager.Replay` | Source/SceneManager.cpp:287-376 | a sequence of draw-state calls keeps the registry, the materials and the program |
| `SceneManager.ApplyCallFlag` | Source/SceneManager.cpp:313-336 | a colour call leaves `bUseTexture` at 0, a texture call at 1, and any other draw-state call leaves it in the state it was in |
| `SceneManager.FlagFollowsLastModeCall` | Source/SceneManager.cpp:313-336 | after any sequence of draw-state calls, `bUseTexture` is 0 if the last colour-or-texture call was a colour call, 1 if it was a texture call, and unchanged if there was none |

## Left out

- `Textures.CreateGLTexture`: requires `RegistrationFits`, which says a registering load needs `count < 16`. The source writes past the table without checking, and the model does not give that out-of-bounds write a meaning.
- `SceneManager.SetShaderMaterial`: requires a non-null shader manager when the list is non-empty. The source dereferences the pointer there without a null check.
- `Shader.DriverAccepts`: models only the lower bound of the driver's sampler check. The upper bound, `GL_MAX_COMBINED_TEXTURE_IMAGE_UNITS`, is left out because no slot here exceeds 15. Other driver errors are left out as well.
- `Gl.Run`: models only unit selection and binding. Deleting a texture does not unbind it in the model, because nothing here depends on that driver behaviour.
- The image decoder (`stbi_load`, `stbi_set_flip_vertically_on_load`, `stbi_image_free`) and the file name: the decoder's result is an input.
- The console logging: it has no effect on state.
- The texture data and mipmap contents: only the driver calls that make them are recorded.
- The matrix arithmetic of `SetTransformations`: it is floating-point and trigonometric work. The `model` uniform records the scale, angles and position it was composed from.
- Floating-point values: they are only copied, never computed with, so `real` stands in for them.
- `SetupSceneLights`, `LoadSceneTextures`, `LoadSceneMaterials`, `PrepareScene` and `RenderScene`: they are literal scene data and a placement script with no logic of their own. The model keeps the `push_back` of the material list, as `Materials.AddMaterial`, and a sequence of texture loads, as `Textures.LoadAll`, with the file names left out.
- The mesh provider (`ShapeMeshes`) and the destructor's mesh deletion: these are external geometry.
- The destructor: apart from mesh deletion, its only effect is its call of `DestroyGLTextures`, which is `Textures.DestroyGLTextures`.
