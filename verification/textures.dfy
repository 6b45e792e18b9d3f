/** The texture registry of the scene manager: a fixed table of 16
    `{tag, ID}` entries whose first `loaded` entries are the textures
    registered so far, in load order. A texture's slot is its index. */
module Textures {
  import opened Gl

  /** The number of entries in the table, one per texture unit the scene may use. */
  const Capacity := 16

  /** The constructor's placeholder: tag "/0" and ID -1, which a 32-bit
      unsigned ID field holds as 0xFFFFFFFF. */
  const PlaceholderTag := "/0"
  const PlaceholderId: uint32 := 0xFFFF_FFFF

  /** The "not found" result of both lookups. */
  const NotFound := -1

  datatype TextureEntry = TextureEntry(tag: string, id: uint32)

  datatype Registry = Registry(entries: seq<TextureEntry>, loaded: nat) {
    predicate Valid()
    {
      |entries| == Capacity && loaded <= Capacity
    }
  }

  /** What the image decoder reported for one file. */
  datatype DecodeOutcome = DecodeFailed | Decoded(width: int, height: int, channels: int)

  /** The outcome of one `CreateGLTexture` call: its return value, the
      registry afterwards, and the driver calls it made. */
  datatype LoadResult = LoadResult(ok: bool, registry: Registry, events: seq<GpuEvent>)

  /** Only RGB and RGBA images are uploaded. */
  predicate SupportedChannels(channels: int)
  {
    channels == 3 || channels == 4
  }

  /** The decode succeeded with a supported channel count, so the texture
      will be registered. */
  predicate Registers(outcome: DecodeOutcome)
  {
    outcome.Decoded? && SupportedChannels(outcome.channels)
  }

  /** The registration write at index `loaded` lands inside the table.
      The source never checks this before writing; a registering load into
      a full table writes past the end of the array. */
  predicate RegistrationFits(reg: Registry, outcome: DecodeOutcome)
  {
    Registers(outcome) ==> reg.loaded < Capacity
  }

  /** The constructor's initialisation loop over the texture table. */
  method Construct() returns (reg: Registry)
    ensures reg.Valid() && reg.loaded == 0
    ensures forall i :: 0 <= i < Capacity ==> reg.entries[i] == TextureEntry(PlaceholderTag, PlaceholderId)
  {
    var entries: seq<TextureEntry> := [];
    var i := 0;
    while i < Capacity
      invariant 0 <= i <= Capacity
      invariant |entries| == i
      invariant forall j :: 0 <= j < i ==> entries[j] == TextureEntry(PlaceholderTag, PlaceholderId)
    {
      entries := entries + [TextureEntry(PlaceholderTag, PlaceholderId)];
      i := i + 1;
    }
    reg := Registry(entries, 0);
  }

  /** The driver calls made for a decoded image before its channel count is inspected. */
  function SetupEvents(name: uint32): seq<GpuEvent>
  {
    [ GenTexture(name), BindTexture(name),
      TexParameteri(WrapS, Repeat), TexParameteri(WrapT, Repeat),
      TexParameteri(MinFilter, Linear), TexParameteri(MagFilter, Linear) ]
  }

  /** Loads one texture. `outcome` is what the decoder made of the file and
      `name` is the texture name the driver hands out for it. */
  function CreateGLTexture(reg: Registry, tag: string, outcome: DecodeOutcome, name: uint32): (r: LoadResult)
    requires reg.Valid()
    requires RegistrationFits(reg, outcome)
    ensures r.registry.Valid()
    ensures r.ok <==> Registers(outcome)
    // a successful load appends {tag, name} at index `loaded` and touches nothing else
    ensures r.ok ==> r.registry.loaded == reg.loaded + 1
    ensures r.ok ==> r.registry.entries[reg.loaded] == TextureEntry(tag, name)
    ensures r.ok ==> forall i :: 0 <= i < Capacity && i != reg.loaded ==> r.registry.entries[i] == reg.entries[i]
    // a failed load leaves the registry as it was
    ensures !r.ok ==> r.registry == reg
    // a failed decode reaches no driver call; an unsupported channel count
    // has already created the texture, which is then never deleted
    ensures outcome.DecodeFailed? ==> r.events == []
    ensures outcome.Decoded? ==> |r.events| >= 2 && r.events[0] == GenTexture(name)
    ensures forall i :: 0 <= i < |r.events| ==> r.events[i] != DeleteTexture(name)
  {
    match outcome
    case DecodeFailed => LoadResult(false, reg, [])
    case Decoded(width, height, channels) =>
      if channels == 3 || channels == 4 then
        var format := if channels == 3 then Rgb8 else Rgba8;
        var events := SetupEvents(name) + [TexImage2D(format, width, height), GenerateMipmap, BindTexture(0)];
        LoadResult(true, Registry(reg.entries[reg.loaded := TextureEntry(tag, name)], reg.loaded + 1), events)
      else
        LoadResult(false, reg, SetupEvents(name))
  }

  /** `r` is the first-match answer of a tag lookup: the smallest loaded
      index holding `tag`, or `NotFound` when no loaded entry holds it. */
  predicate IsFirstMatch(reg: Registry, tag: string, r: int)
    requires reg.Valid()
  {
    if r == NotFound then
      forall j :: 0 <= j < reg.loaded ==> reg.entries[j].tag != tag
    else
      && 0 <= r < reg.loaded
      && reg.entries[r].tag == tag
      && forall j :: 0 <= j < r ==> reg.entries[j].tag != tag
  }

  /** A lookup has exactly one first-match answer. */
  lemma FirstMatchUnique(reg: Registry, tag: string, r1: int, r2: int)
    requires reg.Valid()
    requires IsFirstMatch(reg, tag, r1) && IsFirstMatch(reg, tag, r2)
    ensures r1 == r2
  {
  }

  /** The scan from index `i` onwards. */
  function SlotFrom(reg: Registry, tag: string, i: nat): (r: int)
    requires reg.Valid() && i <= reg.loaded
    ensures r == NotFound || i <= r < reg.loaded
    ensures r == NotFound <==> forall j :: i <= j < reg.loaded ==> reg.entries[j].tag != tag
    ensures r != NotFound ==> reg.entries[r].tag == tag && forall j :: i <= j < r ==> reg.entries[j].tag != tag
    decreases reg.loaded - i
  {
    if i == reg.loaded then NotFound
    else if reg.entries[i].tag == tag then i
    else SlotFrom(reg, tag, i + 1)
  }

  /** The slot a tag resolves to, as a value for use in other definitions. */
  function SlotOf(reg: Registry, tag: string): (r: int)
    requires reg.Valid()
    ensures IsFirstMatch(reg, tag, r)
    ensures NotFound <= r < reg.loaded
  {
    SlotFrom(reg, tag, 0)
  }

  /** The ID a tag resolves to, as a value for use in other definitions. */
  function IdOf(reg: Registry, tag: string): int
    requires reg.Valid()
  {
    var slot := SlotOf(reg, tag);
    if slot == NotFound then NotFound else AsInt32(reg.entries[slot].id)
  }

  /** `FindTextureSlot`: the source's first-match scan over the loaded prefix. */
  method FindTextureSlot(reg: Registry, tag: string) returns (slot: int)
    requires reg.Valid()
    ensures IsFirstMatch(reg, tag, slot)
    ensures slot == SlotOf(reg, tag)
  {
    slot := NotFound;
    var index := 0;
    var found := false;
    while index < reg.loaded && !found
      invariant 0 <= index <= reg.loaded
      invariant forall j :: 0 <= j < index ==> reg.entries[j].tag != tag
      invariant found ==> index < reg.loaded && reg.entries[index].tag == tag && slot == index
      invariant !found ==> slot == NotFound
      decreases reg.loaded - index, if found then 0 else 1
    {
      if reg.entries[index].tag == tag {
        slot := index;
        found := true;
      } else {
        index := index + 1;
      }
    }
  }

  /** `FindTextureID`: the same scan, answering with the stored ID read as an `int`. */
  method FindTextureID(reg: Registry, tag: string) returns (id: int)
    requires reg.Valid()
    ensures (forall j :: 0 <= j < reg.loaded ==> reg.entries[j].tag != tag) ==> id == NotFound
    ensures forall s :: 0 <= s < reg.loaded && IsFirstMatch(reg, tag, s) ==> id == AsInt32(reg.entries[s].id)
    ensures id == IdOf(reg, tag)
  {
    id := NotFound;
    var index := 0;
    var found := false;
    while index < reg.loaded && !found
      invariant 0 <= index <= reg.loaded
      invariant forall j :: 0 <= j < index ==> reg.entries[j].tag != tag
      invariant found ==> index < reg.loaded && reg.entries[index].tag == tag && id == AsInt32(reg.entries[index].id)
      invariant !found ==> id == NotFound
      decreases reg.loaded - index, if found then 0 else 1
    {
      if reg.entries[index].tag == tag {
        id := AsInt32(reg.entries[index].id);
        found := true;
      } else {
        index := index + 1;
      }
    }
  }

  /** The ID lookup misses exactly when the slot lookup does, provided no
      registered texture carries the name 0xFFFFFFFF (which reads as -1). */
  lemma IdMissesIffSlotMisses(reg: Registry, tag: string)
    requires reg.Valid()
    requires forall j :: 0 <= j < reg.loaded ==> reg.entries[j].id != PlaceholderId
    ensures IdOf(reg, tag) == NotFound <==> SlotOf(reg, tag) == NotFound
  {
  }

  /** Lookups read only the loaded prefix: two registries that agree on it
      resolve every tag alike, whatever their unloaded entries hold. */
  lemma LookupIgnoresUnloaded(r1: Registry, r2: Registry, tag: string)
    requires r1.Valid() && r2.Valid()
    requires r1.loaded == r2.loaded
    requires forall j :: 0 <= j < r1.loaded ==> r1.entries[j] == r2.entries[j]
    ensures SlotOf(r1, tag) == SlotOf(r2, tag)
    ensures IdOf(r1, tag) == IdOf(r2, tag)
  {
  }

  /** After a successful load, the new tag resolves to the new entry when it
      was not registered before; otherwise the earlier entry shadows it. */
  lemma LoadedTagResolves(reg: Registry, tag: string, outcome: DecodeOutcome, name: uint32)
    requires reg.Valid() && RegistrationFits(reg, outcome) && Registers(outcome)
    ensures SlotOf(reg, tag) == NotFound ==>
      && SlotOf(CreateGLTexture(reg, tag, outcome, name).registry, tag) == reg.loaded
      && IdOf(CreateGLTexture(reg, tag, outcome, name).registry, tag) == AsInt32(name)
    ensures SlotOf(reg, tag) != NotFound ==>
      SlotOf(CreateGLTexture(reg, tag, outcome, name).registry, tag) == SlotOf(reg, tag)
  {
  }

  /** A load leaves the resolution of every other tag unchanged. */
  lemma LoadKeepsOtherTags(reg: Registry, tag: string, other: string, outcome: DecodeOutcome, name: uint32)
    requires reg.Valid() && RegistrationFits(reg, outcome)
    requires other != tag
    ensures SlotOf(CreateGLTexture(reg, tag, outcome, name).registry, other) == SlotOf(reg, other)
    ensures IdOf(CreateGLTexture(reg, tag, outcome, name).registry, other) == IdOf(reg, other)
  {
  }

  /** One `CreateGLTexture` call of a load sequence. */
  datatype LoadRequest = LoadRequest(tag: string, outcome: DecodeOutcome, name: uint32)

  /** The registry after the loads in `loads`, made one after another in
      order, as the scene's texture loading does. At most one entry per load
      is added, so loads that fit in the table never overrun it. */
  function LoadAll(reg: Registry, loads: seq<LoadRequest>): (r: Registry)
    requires reg.Valid() && reg.loaded + |loads| <= Capacity
    ensures r.Valid()
    ensures reg.loaded <= r.loaded <= reg.loaded + |loads|
    ensures forall j :: 0 <= j < reg.loaded ==> r.entries[j] == reg.entries[j]
    decreases |loads|
  {
    if |loads| == 0 then reg
    else
      var load := loads[0];
      LoadAll(CreateGLTexture(reg, load.tag, load.outcome, load.name).registry, loads[1..])
  }

  /** A tag that no load of the sequence uses resolves afterwards exactly as
      it did before, both to a slot and to an ID. */
  lemma {:induction false} LoadsKeepUnusedTags(reg: Registry, loads: seq<LoadRequest>, tag: string)
    requires reg.Valid() && reg.loaded + |loads| <= Capacity
    requires forall i :: 0 <= i < |loads| ==> loads[i].tag != tag
    ensures SlotOf(LoadAll(reg, loads), tag) == SlotOf(reg, tag)
    ensures IdOf(LoadAll(reg, loads), tag) == IdOf(reg, tag)
    decreases |loads|
  {
    if |loads| > 0 {
      var load := loads[0];
      var next := CreateGLTexture(reg, load.tag, load.outcome, load.name).registry;
      LoadKeepsOtherTags(reg, load.tag, tag, load.outcome, load.name);
      LoadsKeepUnusedTags(next, loads[1..], tag);
    }
  }

  /** The constructor's placeholder entries are never matched: after the
      constructor and any loads, none of them under the tag "/0", a lookup of
      "/0" still finds nothing, although the unloaded entries all carry it. */
  lemma PlaceholderNeverFound(reg: Registry, loads: seq<LoadRequest>)
    requires reg.Valid() && reg.loaded == 0
    requires forall i :: 0 <= i < Capacity ==> reg.entries[i] == TextureEntry(PlaceholderTag, PlaceholderId)
    requires |loads| <= Capacity
    requires forall i :: 0 <= i < |loads| ==> loads[i].tag != PlaceholderTag
    ensures SlotOf(LoadAll(reg, loads), PlaceholderTag) == NotFound
    ensures IdOf(LoadAll(reg, loads), PlaceholderTag) == NotFound
  {
    LoadsKeepUnusedTags(reg, loads, PlaceholderTag);
  }

  /** `events` is the binding pass over the first `n` entries: pair i selects
      texture unit i and binds entry i's ID to it. */
  ghost predicate IsBindPass(reg: Registry, n: nat, events: seq<GpuEvent>)
    requires reg.Valid() && n <= reg.loaded
  {
    && |events| == 2 * n
    && forall i :: 0 <= i < n ==>
         events[2 * i] == ActiveTexture(i) && events[2 * i + 1] == BindTexture(reg.entries[i].id)
  }

  /** `BindGLTextures`: binds texture unit i to entry i for each loaded entry, in order. */
  method BindGLTextures(reg: Registry) returns (events: seq<GpuEvent>)
    requires reg.Valid()
    ensures IsBindPass(reg, reg.loaded, events)
  {
    events := [];
    var i := 0;
    while i < reg.loaded
      invariant 0 <= i <= reg.loaded
      invariant IsBindPass(reg, i, events)
    {
      events := events + [ActiveTexture(i), BindTexture(reg.entries[i].id)];
      i := i + 1;
    }
  }

  /** The unit bindings a binding pass over the first `n` entries leaves
      behind, starting from `before`: units 0..n-1 hold the loaded IDs and
      every other unit keeps what it had. */
  ghost function BoundAfter(reg: Registry, n: nat, before: map<int, uint32>): (m: map<int, uint32>)
    requires reg.Valid() && n <= reg.loaded
    ensures forall u :: u in m <==> u in before || 0 <= u < n
    ensures forall u :: 0 <= u < n ==> m[u] == reg.entries[u].id
    ensures forall u :: u in before && !(0 <= u < n) ==> m[u] == before[u]
    decreases n
  {
    if n == 0 then before else BoundAfter(reg, n - 1, before)[n - 1 := reg.entries[n - 1].id]
  }

  /** Running a binding pass binds unit i to entry i's ID for every loaded
      i, leaves every other unit as it was, and leaves the last unit active. */
  lemma {:induction false} BindPassEffect(reg: Registry, n: nat, events: seq<GpuEvent>, g: Bindings)
    requires reg.Valid() && n <= reg.loaded
    requires IsBindPass(reg, n, events)
    ensures Run(g, events).bound == BoundAfter(reg, n, g.bound)
    ensures Run(g, events).activeUnit == if n == 0 then g.activeUnit else n - 1
    decreases n
  {
    if n == 0 {
      assert events == [];
    } else {
      var prefix := events[..2 * (n - 1)];
      var id := reg.entries[n - 1].id;
      SplitBindPass(reg, n, events);
      BindPassEffect(reg, n - 1, prefix, g);
      RunConcat(g, prefix, [ActiveTexture(n - 1), BindTexture(id)]);
      BindOneUnit(Run(g, prefix), n - 1, id);
    }
  }

  /** A binding pass over n entries is the pass over n - 1 entries followed
      by the pair for entry n - 1. */
  lemma SplitBindPass(reg: Registry, n: nat, events: seq<GpuEvent>)
    requires reg.Valid() && 0 < n <= reg.loaded
    requires IsBindPass(reg, n, events)
    ensures IsBindPass(reg, n - 1, events[..2 * (n - 1)])
    ensures events == events[..2 * (n - 1)] + [ActiveTexture(n - 1), BindTexture(reg.entries[n - 1].id)]
  {
    var prefix := events[..2 * (n - 1)];
    assert events == prefix + events[2 * (n - 1)..];
    assert events[2 * (n - 1)..] == [ActiveTexture(n - 1), BindTexture(reg.entries[n - 1].id)];
  }

  /** Selecting a unit and binding a name to it. */
  lemma BindOneUnit(g: Bindings, u: int, name: uint32)
    ensures Run(g, [ActiveTexture(u), BindTexture(name)]) == Bindings(u, g.bound[u := name])
  {
    var evs := [ActiveTexture(u), BindTexture(name)];
    var selected := Step(g, ActiveTexture(u));
    assert selected == g.(activeUnit := u);
    assert evs[1..] == [BindTexture(name)];
    assert Run(g, evs) == Run(selected, [BindTexture(name)]);
    assert [BindTexture(name)][1..] == [];
    assert Run(selected, [BindTexture(name)]) == Run(Step(selected, BindTexture(name)), []);
  }

  /** Binding is idempotent: a second binding pass changes no unit binding
      and leaves the same unit active. */
  lemma BindTwiceIsBindOnce(reg: Registry, events: seq<GpuEvent>, g: Bindings)
    requires reg.Valid()
    requires IsBindPass(reg, reg.loaded, events)
    ensures Run(Run(g, events), events) == Run(g, events)
  {
    var once := Run(g, events);
    var twice := Run(once, events);
    BindPassEffect(reg, reg.loaded, events, g);
    BindPassEffect(reg, reg.loaded, events, once);
    assert twice.bound.Keys == once.bound.Keys;
    assert forall u :: u in once.bound ==> twice.bound[u] == once.bound[u];
    assert twice.bound == once.bound;
  }

  /** `DestroyGLTextures`: deletes the ID of each loaded entry, in order. The
      count is not reset, so the registry after the call is the one before. */
  method DestroyGLTextures(reg: Registry) returns (events: seq<GpuEvent>, after: Registry)
    requires reg.Valid()
    ensures |events| == reg.loaded
    ensures forall i :: 0 <= i < reg.loaded ==> events[i] == DeleteTexture(reg.entries[i].id)
    ensures after.loaded == reg.loaded && after.entries == reg.entries
  {
    events := [];
    var i := 0;
    while i < reg.loaded
      invariant 0 <= i <= reg.loaded
      invariant |events| == i
      invariant forall j :: 0 <= j < i ==> events[j] == DeleteTexture(reg.entries[j].id)
    {
      events := events + [DeleteTexture(reg.entries[i].id)];
      i := i + 1;
    }
    after := reg;
  }
}
