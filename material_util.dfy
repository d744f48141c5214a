/**
 * The version-keyed material tables of the plugin: the liquids, the
 * containers that need free space above them, the materials allowed in that
 * space, the occlusion correction, and the two set helpers built on top.
 */
module MaterialUtil {
  import opened Wrappers
  import opened ServerVersions
  import opened JavaStrings

  /** The Bukkit materials the tables mention, plus an ordinary block. */
  datatype Material =
    | Air | CaveAir | Stone
    | Water | Lava | StationaryWater | StationaryLava
    | Chest | TrappedChest | EnderChest | Anvil
    | EnchantingTable | EnchantmentTable
    | Barrier | Spawner | MobSpawner | SlimeBlock
    | StainedGlassPane | ThinGlass | IronFence
    | OakSlab | OakStairs | OakSign | WallSign
    | ShulkerBox | WhiteShulkerBox

  /** `Material.name()`: the enum constant's name. */
  function Name(m: Material): string
  {
    match m
    case Air => "AIR"
    case CaveAir => "CAVE_AIR"
    case Stone => "STONE"
    case Water => "WATER"
    case Lava => "LAVA"
    case StationaryWater => "STATIONARY_WATER"
    case StationaryLava => "STATIONARY_LAVA"
    case Chest => "CHEST"
    case TrappedChest => "TRAPPED_CHEST"
    case EnderChest => "ENDER_CHEST"
    case Anvil => "ANVIL"
    case EnchantingTable => "ENCHANTING_TABLE"
    case EnchantmentTable => "ENCHANTMENT_TABLE"
    case Barrier => "BARRIER"
    case Spawner => "SPAWNER"
    case MobSpawner => "MOB_SPAWNER"
    case SlimeBlock => "SLIME_BLOCK"
    case StainedGlassPane => "STAINED_GLASS_PANE"
    case ThinGlass => "THIN_GLASS"
    case IronFence => "IRON_FENCE"
    case OakSlab => "OAK_SLAB"
    case OakStairs => "OAK_STAIRS"
    case OakSign => "OAK_SIGN"
    case WallSign => "WALL_SIGN"
    case ShulkerBox => "SHULKER_BOX"
    case WhiteShulkerBox => "WHITE_SHULKER_BOX"
  }

  /** `Material.values()`; the order of iteration does not affect any table. */
  const AllMaterials: set<Material> := set m: Material | true

  // ---------------------------------------------------------------------------
  // getMaterialsEndingWith
  // ---------------------------------------------------------------------------

  /** The name ends with at least one of the given suffixes. */
  predicate EndsWithAny(name: string, ends: seq<string>)
  {
    |ends| > 0 && (EndsWith(name, ends[0]) || EndsWithAny(name, ends[1..]))
  }

  /** `EndsWithAny` holds exactly when some listed suffix matches. */
  lemma {:induction false} EndsWithAnyIndex(name: string, ends: seq<string>)
    ensures EndsWithAny(name, ends) <==> exists k :: 0 <= k < |ends| && EndsWith(name, ends[k])
  {
    if |ends| > 0 {
      EndsWithAnyIndex(name, ends[1..]);
      if EndsWithAny(name, ends[1..]) {
        var k :| 0 <= k < |ends[1..]| && EndsWith(name, ends[1..][k]);
        assert EndsWith(name, ends[k + 1]);
      }
      forall k | 1 <= k < |ends| && EndsWith(name, ends[k])
        ensures EndsWithAny(name, ends[1..])
      {
        assert ends[1..][k - 1] == ends[k];
      }
    }
  }

  /** The materials whose name ends with at least one of `ends`. */
  function MaterialsEndingWith(ends: seq<string>): set<Material>
  {
    set m: Material | EndsWithAny(Name(m), ends)
  }

  /**
   * `getMaterialsEndingWith(ends...)`: for each material, scan the suffixes
   * and add the material at the first one that matches.
   */
  method GetMaterialsEndingWith(ends: seq<string>) returns (materials: set<Material>)
    ensures materials == MaterialsEndingWith(ends)
    ensures forall m :: m in materials <==> exists k :: 0 <= k < |ends| && EndsWith(Name(m), ends[k])
    ensures ends == [] ==> materials == {}
  {
    materials := {};
    var remaining := AllMaterials;
    while remaining != {}
      invariant forall m :: m !in remaining ==> (m in materials <==> EndsWithAny(Name(m), ends))
      invariant forall m :: m in remaining ==> m !in materials
      decreases remaining
    {
      var material :| material in remaining;
      EndsWithAnyIndex(Name(material), ends);
      var j := 0;
      while j < |ends|
        invariant 0 <= j <= |ends|
        invariant forall k :: 0 <= k < j ==> !EndsWith(Name(material), ends[k])
        invariant forall m :: m !in remaining ==> (m in materials <==> EndsWithAny(Name(m), ends))
        invariant forall m :: m in remaining ==> m !in materials
      {
        if EndsWith(Name(material), ends[j]) {
          materials := materials + {material};
          break;
        }
        j := j + 1;
      }
      remaining := remaining - {material};
    }
    forall m
      ensures m in materials <==> exists k :: 0 <= k < |ends| && EndsWith(Name(m), ends[k])
    {
      EndsWithAnyIndex(Name(m), ends);
    }
  }

  /** Membership for a one-element suffix list. */
  lemma EndsWithOne(m: Material, a: string)
    ensures m in MaterialsEndingWith([a]) <==> EndsWith(Name(m), a)
  {
    assert [a][1..] == [];
    assert EndsWithAny(Name(m), [a]) <==> EndsWith(Name(m), a) || EndsWithAny(Name(m), []);
  }

  /** Membership for a two-element suffix list. */
  lemma EndsWithTwo(m: Material, a: string, b: string)
    ensures m in MaterialsEndingWith([a, b]) <==> EndsWith(Name(m), a) || EndsWith(Name(m), b)
  {
    assert [a, b][1..] == [b];
    assert [b][1..] == [];
    assert EndsWithAny(Name(m), [b]) <==> EndsWith(Name(m), b) || EndsWithAny(Name(m), []);
    assert EndsWithAny(Name(m), [a, b]) <==> EndsWith(Name(m), a) || EndsWithAny(Name(m), [b]);
  }

  // ---------------------------------------------------------------------------
  // The static tables
  // ---------------------------------------------------------------------------

  /** `LIQUIDS` for the active server version. */
  function Liquids(v: ServerVersion): (r: Result<set<Material>, VersionError>)
    ensures r.Failure? <==> !v.IsSupported()
    ensures r.Success? ==> {Water, Lava} <= r.value
  {
    match v
    case MC188 | MC112 => Success({Water, Lava, StationaryWater, StationaryLava})
    case MC113 | MC114 | MC115 | MC116 => Success({Water, Lava})
    case _ => Failure(UnknownMinecraftVersion)
  }

  /** The part of the allowed set that every supported version shares. */
  function CommonAllowedMaterials(): set<Material>
  {
    {Air, Chest, TrappedChest, EnderChest, Anvil} + MaterialsEndingWith(["_SLAB", "_STAIRS"])
  }

  /** `FREE_SPACE_CONTAINERS_ALLOWED_MATERIALS` for the active server version. */
  function FreeSpaceContainersAllowedMaterials(v: ServerVersion): (r: Result<set<Material>, VersionError>)
    ensures r.Failure? <==> !v.IsSupported()
    ensures r.Success? ==> CommonAllowedMaterials() <= r.value
  {
    match v
    case MC188 | MC112 => Success(CommonAllowedMaterials() + {EnchantmentTable})
    case MC113 => Success(CommonAllowedMaterials() + {CaveAir, EnchantingTable})
    case MC114 | MC115 | MC116 => Success(CommonAllowedMaterials() + MaterialsEndingWith(["_SIGN"]) + {CaveAir, EnchantingTable})
    case _ => Failure(UnknownMinecraftVersion)
  }

  /** The suffix the source passes when it collects the shulker boxes. */
  const SHULKER_SUFFIX_AS_WRITTEN := "SHULKER_BOK"

  /** The suffix of every shulker box material's name. */
  const SHULKER_SUFFIX := "SHULKER_BOX"

  /** `FREE_SPACE_CONTAINERS` exactly as the source builds it, with its misspelt suffix. */
  function FreeSpaceContainersAsWritten(): (r: set<Material>)
    ensures {Chest, TrappedChest, EnderChest} <= r
  {
    {Chest, TrappedChest, EnderChest} + MaterialsEndingWith([SHULKER_SUFFIX_AS_WRITTEN])
  }

  /** `FREE_SPACE_CONTAINERS` as intended: the three chests and every shulker box. */
  function FreeSpaceContainers(): (r: set<Material>)
    ensures {Chest, TrappedChest, EnderChest} <= r
  {
    {Chest, TrappedChest, EnderChest} + MaterialsEndingWith([SHULKER_SUFFIX])
  }

  /** The values of the three static tables. */
  datatype MaterialTables = MaterialTables(
    liquids: set<Material>,
    freeSpaceContainers: set<Material>,
    freeSpaceContainersAllowedMaterials: set<Material>)

  /**
   * The static initialiser: builds the container set and the allowed set step
   * by step, then completes the allowed set and picks the liquids by a switch
   * on the version.
   */
  method LoadTables(v: ServerVersion) returns (r: Result<MaterialTables, VersionError>)
    ensures r.Failure? <==> !v.IsSupported()
    ensures r.Success? ==> Liquids(v) == Success(r.value.liquids)
    ensures r.Success? ==> FreeSpaceContainersAllowedMaterials(v) == Success(r.value.freeSpaceContainersAllowedMaterials)
    ensures r.Success? ==> r.value.freeSpaceContainers == FreeSpaceContainers()
  {
    var freeSpaceMaterials := {Chest, TrappedChest, EnderChest};
    var shulkerBoxes := GetMaterialsEndingWith([SHULKER_SUFFIX]);
    freeSpaceMaterials := freeSpaceMaterials + shulkerBoxes;

    var allowedMaterials := {Air, Chest, TrappedChest, EnderChest, Anvil};
    var slabsAndStairs := GetMaterialsEndingWith(["_SLAB", "_STAIRS"]);
    allowedMaterials := allowedMaterials + slabsAndStairs;
    assert allowedMaterials == CommonAllowedMaterials();

    var liquids: set<Material>;
    match v {
      case MC188 | MC112 =>
        allowedMaterials := allowedMaterials + {EnchantmentTable};
        liquids := {Water, Lava, StationaryWater, StationaryLava};
      case MC113 =>
        allowedMaterials := allowedMaterials + {CaveAir};
        allowedMaterials := allowedMaterials + {EnchantingTable};
        assert allowedMaterials == CommonAllowedMaterials() + {CaveAir, EnchantingTable};
        liquids := {Water, Lava};
      case MC114 | MC115 | MC116 =>
        var signs := GetMaterialsEndingWith(["_SIGN"]);
        allowedMaterials := allowedMaterials + signs;
        allowedMaterials := allowedMaterials + {CaveAir};
        allowedMaterials := allowedMaterials + {EnchantingTable};
        assert allowedMaterials == CommonAllowedMaterials() + MaterialsEndingWith(["_SIGN"]) + {CaveAir, EnchantingTable};
        liquids := {Water, Lava};
      case _ =>
        return Failure(UnknownMinecraftVersion);
    }
    r := Success(MaterialTables(liquids, freeSpaceMaterials, allowedMaterials));
  }

  // ---------------------------------------------------------------------------
  // Properties of the tables
  // ---------------------------------------------------------------------------

  /** The liquids are the four legacy ones on MC188 and MC112, and only water and lava from MC113 on. */
  lemma LiquidsByVersion(v: ServerVersion)
    ensures v in {MC188, MC112} ==> Liquids(v) == Success({Water, Lava, StationaryWater, StationaryLava})
    ensures v.AtLeast113() ==> Liquids(v) == Success({Water, Lava})
    ensures Liquids(v).Failure? <==> !v.IsSupported()
  {
  }

  /** No material's name ends with "SHULKER_BOK". */
  lemma NoShulkerBokName(m: Material)
    ensures !EndsWith(Name(m), SHULKER_SUFFIX_AS_WRITTEN)
  {
    if m == SlimeBlock {
      EndsWithIsTailSlice(Name(m), SHULKER_SUFFIX_AS_WRITTEN);
      assert Name(m)[1] != SHULKER_SUFFIX_AS_WRITTEN[1];
    }
  }

  /** Because no name ends with "SHULKER_BOK", the source's container set holds only the three chests. */
  lemma FreeSpaceContainersAsWrittenMissesShulkerBoxes()
    ensures FreeSpaceContainersAsWritten() == {Chest, TrappedChest, EnderChest}
    ensures ShulkerBox !in FreeSpaceContainersAsWritten()
  {
    forall m
      ensures m !in MaterialsEndingWith([SHULKER_SUFFIX_AS_WRITTEN])
    {
      NoShulkerBokName(m);
      EndsWithOne(m, SHULKER_SUFFIX_AS_WRITTEN);
    }
  }

  /** The corrected container set holds the three chests and exactly the materials named like shulker boxes. */
  lemma FreeSpaceContainersMembers(m: Material)
    ensures m in FreeSpaceContainers() <==> m in {Chest, TrappedChest, EnderChest} || EndsWith(Name(m), SHULKER_SUFFIX)
    ensures ShulkerBox in FreeSpaceContainers() && WhiteShulkerBox in FreeSpaceContainers()
  {
    EndsWithOne(m, SHULKER_SUFFIX);
    EndsWithOne(ShulkerBox, SHULKER_SUFFIX);
    EndsWithOne(WhiteShulkerBox, SHULKER_SUFFIX);
    EndsWithIsTailSlice(Name(ShulkerBox), SHULKER_SUFFIX);
    EndsWithIsTailSlice(Name(WhiteShulkerBox), SHULKER_SUFFIX);
    assert Name(WhiteShulkerBox)[6..] == SHULKER_SUFFIX;
  }

  /** On every supported version the allowed set holds air, the chests, the anvil and every slab and stair. */
  lemma AllowedMaterialsAlwaysHold(v: ServerVersion, m: Material)
    requires v.IsSupported()
    ensures FreeSpaceContainersAllowedMaterials(v).Success?
    ensures {Air, Chest, TrappedChest, EnderChest, Anvil} <= FreeSpaceContainersAllowedMaterials(v).value
    ensures EndsWith(Name(m), "_SLAB") || EndsWith(Name(m), "_STAIRS") ==> m in FreeSpaceContainersAllowedMaterials(v).value
  {
    EndsWithTwo(m, "_SLAB", "_STAIRS");
  }

  /** Cave air is not matched by the slab, stair or sign suffixes. */
  lemma CaveAirHasNoSuffix()
    ensures CaveAir !in CommonAllowedMaterials() && CaveAir !in MaterialsEndingWith(["_SIGN"])
  {
    EndsWithTwo(CaveAir, "_SLAB", "_STAIRS");
    EndsWithOne(CaveAir, "_SIGN");
  }

  /** The enchanting table is not matched by the slab, stair or sign suffixes. */
  lemma EnchantingTableHasNoSuffix()
    ensures EnchantingTable !in CommonAllowedMaterials() && EnchantingTable !in MaterialsEndingWith(["_SIGN"])
  {
    EndsWithTwo(EnchantingTable, "_SLAB", "_STAIRS");
    EndsWithOne(EnchantingTable, "_SIGN");
  }

  /** The legacy enchantment table is not matched by the slab, stair or sign suffixes. */
  lemma EnchantmentTableHasNoSuffix()
    ensures EnchantmentTable !in CommonAllowedMaterials() && EnchantmentTable !in MaterialsEndingWith(["_SIGN"])
  {
    EndsWithTwo(EnchantmentTable, "_SLAB", "_STAIRS");
    EndsWithOne(EnchantmentTable, "_SIGN");
  }

  /** Cave air and the enchanting table are allowed exactly from MC113 on, the legacy enchantment table exactly before. */
  lemma EnchantingTableAndCaveAirFrom113(v: ServerVersion)
    requires v.IsSupported()
    ensures FreeSpaceContainersAllowedMaterials(v).Success?
    ensures CaveAir in FreeSpaceContainersAllowedMaterials(v).value <==> v.AtLeast113()
    ensures EnchantingTable in FreeSpaceContainersAllowedMaterials(v).value <==> v.AtLeast113()
    ensures EnchantmentTable in FreeSpaceContainersAllowedMaterials(v).value <==> !v.AtLeast113()
  {
    CaveAirHasNoSuffix();
    EnchantingTableHasNoSuffix();
    EnchantmentTableHasNoSuffix();
  }

  /** A name ending in "_SIGN" ends in 'N', unlike every fixed member of the allowed set and every slab or stair. */
  lemma SignIsNoOtherAllowedMaterial(m: Material)
    requires EndsWith(Name(m), "_SIGN")
    ensures m !in CommonAllowedMaterials()
    ensures m !in {CaveAir, EnchantingTable, EnchantmentTable}
  {
    EndsWithTwo(m, "_SLAB", "_STAIRS");
    assert Name(m)[|Name(m)| - 1] == 'N';
  }

  /** `_SIGN` materials are allowed exactly on MC114, MC115 and MC116. */
  lemma SignsAllowedFrom114(v: ServerVersion, m: Material)
    requires v.IsSupported()
    requires EndsWith(Name(m), "_SIGN")
    ensures FreeSpaceContainersAllowedMaterials(v).Success?
    ensures m in FreeSpaceContainersAllowedMaterials(v).value <==> v in {MC114, MC115, MC116}
  {
    EndsWithOne(m, "_SIGN");
    SignIsNoOtherAllowedMaterial(m);
  }

  // ---------------------------------------------------------------------------
  // isReallyOccluding, containsMaterials, containsLiquids
  // ---------------------------------------------------------------------------

  /** The spawner material: `MOB_SPAWNER` before MC113, `SPAWNER` from MC113 on. */
  function SpawnerMaterial(v: ServerVersion): (m: Material)
    ensures m == Spawner || m == MobSpawner
    ensures m == MobSpawner <==> !v.AtLeast113()
  {
    if v.AtLeast113() then Spawner else MobSpawner
  }

  /**
   * `isReallyOccluding(material)`: Bukkit's `isOccluding`, passed in as
   * `isOccluding`, corrected to false for the barrier and the spawner.
   */
  function IsReallyOccluding(v: ServerVersion, material: Material, isOccluding: Material -> bool): (r: Result<bool, VersionError>)
    ensures r.Failure? <==> !v.IsSupported()
    ensures r.Success? ==> (r.value <==> material != Barrier && material != SpawnerMaterial(v) && isOccluding(material))
  {
    match v
    case MC188 | MC112 => Success(material != Barrier && material != MobSpawner && isOccluding(material))
    case MC113 | MC114 | MC115 | MC116 => Success(material != Barrier && material != Spawner && isOccluding(material))
    case _ => Failure(UnknownMinecraftVersion)
  }

  /** The barrier and the spawner never occlude, whatever Bukkit says; every other material gets Bukkit's answer. */
  lemma BarrierAndSpawnerNeverOcclude(v: ServerVersion, isOccluding: Material -> bool, m: Material)
    requires v.IsSupported()
    ensures IsReallyOccluding(v, Barrier, isOccluding) == Success(false)
    ensures IsReallyOccluding(v, SpawnerMaterial(v), isOccluding) == Success(false)
    ensures m != Barrier && m != SpawnerMaterial(v) ==> IsReallyOccluding(v, m, isOccluding) == Success(isOccluding(m))
  {
  }

  /** `containsMaterials(searchFor, toBeSearched)`: is any element of the first in the second? */
  method ContainsMaterials(searchFor: set<Material>, toBeSearched: set<Material>) returns (found: bool)
    ensures found <==> exists m :: m in searchFor && m in toBeSearched
  {
    var remaining := searchFor;
    while remaining != {}
      invariant remaining <= searchFor
      invariant forall m :: m in searchFor && m !in remaining ==> m !in toBeSearched
      decreases remaining
    {
      var material :| material in remaining;
      if material in toBeSearched {
        return true;
      }
      remaining := remaining - {material};
    }
    return false;
  }

  /** `containsLiquids(toBeSearched)`: does the collection hold a member of `LIQUIDS`? */
  method ContainsLiquids(tables: MaterialTables, toBeSearched: set<Material>) returns (found: bool)
    ensures found <==> exists m :: m in tables.liquids && m in toBeSearched
  {
    found := ContainsMaterials(tables.liquids, toBeSearched);
  }
}
