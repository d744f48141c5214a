# AACAdditionPro decision rules and version tables in Dafny

This project models the small, version-keyed core of the AACAdditionPro
anti-cheat plugin for Minecraft servers, and proves properties of that model:

- **Equal-rotation detector** (`EqualRotationPattern`). A look packet whose
  yaw and pitch are exactly the stored ones is flagged with violation level -1.
  It is not flagged in these cases:
  - the player is in a vehicle, teleported within 5000 ms, or did not move
    horizontally within 100 ms;
  - the world excuses it: a landing into liquid on a slime block, or, on a 1.8
    server, a newer client touching a block whose hitbox changed in 1.9;
  - a one-shot "expected" flag absorbs it;
  - the main-thread world check times out or fails.

  `onPacketReceiving` is a method of a detector class. It updates the user's
  expected flag and appends to a record of `flag` calls. Its decision is a pure
  function, `Decide`, and the lemmas are stated about `Decide`.
- **Client version control** (`VersionControl`). It covers:
  - the table of nine registered protocol versions;
  - the lookup from a protocol number to a server version, with null for
    unknown numbers (`Option`);
  - `enable`, which splits the table into allowed names and blocked protocol
    numbers, sorts the blocked numbers, and fills the `{supportedVersions}`
    placeholder of the configured kick message;
  - `ProtocolVersion.equals` and `hashCode`.
- **Material tables** (`MaterialUtil`). It covers:
  - the liquids;
  - the containers that need free space above them;
  - the materials allowed in that space;
  - the version-dependent occlusion correction;
  - the suffix filter `getMaterialsEndingWith`;
  - the set-intersection helpers.

  Each version switch returns `Failure(UnknownMinecraftVersion)` where the
  source throws. The static initialiser is the method `LoadTables`.
- **Scaffold rotation pattern** (`RotationTypeTwoPattern`). A class whose
  function-valued field is replaced by `enable` and `disable`. When enabled it
  scores an angle sum above 7 with 2 and anything else with 0. The initial and
  disabled consumers score 0.

Supporting modules:

| module | models |
|---|---|
| `Wrappers` | `Option` and `Result` |
| `ServerVersions` | the server version enumeration |
| `JavaStrings` | `String.endsWith`, `String.replace` and `String.join` |
| `JavaLists` | `List.sort` on integers, as insertion sort, with a proof that the sorted permutation is unique |

Behaviour worth noting:

- `onPacketReceiving` only reads the stored yaw and pitch
  (`EqualRotationPattern.java:96-97`). The comment on line 95 says another
  component, the look-packet tracker, keeps them up to date. So
  `OnPacketReceiving` leaves `realLastYaw` and `realLastPitch` unchanged, and
  a run of packets (`FlagCount`) carries the stored rotation of every step as
  an input.
- `RotationTypeTwoPattern` keeps no accumulator and resets nothing
  (`RotationTypeTwoPattern.java:28-34`). It maps the angle value it is given to
  a score.

## Model

| member | source | states |
|---|---|---|
| `EqualRotationPattern.ChangedHitboxMaterials` | src/main/java/de/photon/aacadditionpro/modules/checks/packetanalysis/EqualRotationPattern.java:46-65 | Fails exactly for versions without a table entry (MC19, MC110, MC111); empty for every supported version other than MC188 |
| `EqualRotationPattern.ChangedHitboxMaterialsOn188` | src/main/java/de/photon/aacadditionpro/modules/checks/packetanalysis/EqualRotationPattern.java:48-53 | On MC188 the set holds exactly five materials: stained glass pane, thin glass, iron fence, chest, anvil |
| `EqualRotationPattern.FloatEqualsProperties` | src/main/java/de/photon/aacadditionpro/modules/checks/packetanalysis/EqualRotationPattern.java:96-97 | Java `float` `==` is symmetric, reflexive except on NaN, equates +0.0 and -0.0, and never holds for NaN |
| `EqualRotationPattern.ExpectedAfter` | src/main/java/de/photon/aacadditionpro/modules/checks/packetanalysis/EqualRotationPattern.java:115-117 | The expected flag can only go from true to false, and changes only on a consumed occurrence |
| `EqualRotationPattern.ViolationLevelManagement.Flag` | src/main/java/de/photon/aacadditionpro/modules/checks/packetanalysis/EqualRotationPattern.java:120-122 | One `flag` call appends exactly one event (player, vl) to the record |
| `EqualRotationPattern.EqualRotationDetector.constructor` | src/main/java/de/photon/aacadditionpro/modules/checks/packetanalysis/EqualRotationPattern.java:46-65 | The detector exists only on a version whose hitbox table does not throw; it holds that table |
| `EqualRotationPattern.EqualRotationDetector.OnPacketReceiving` | src/main/java/de/photon/aacadditionpro/modules/checks/packetanalysis/EqualRotationPattern.java:76-131 | The verdict is `Decide` on the stored state; the expected flag is cleared only on a consumed occurrence; exactly one `flag(player, -1)` is recorded when it flags and none otherwise; yaw and pitch are untouched |
| `EqualRotationPattern.GraceConditionsNeverFlag` | src/main/java/de/photon/aacadditionpro/modules/checks/packetanalysis/EqualRotationPattern.java:91-99 | In a vehicle, within 5000 ms of a teleport, or without horizontal movement in 100 ms, the packet is ignored and the expected flag is kept |
| `EqualRotationPattern.DifferentRotationNeverFlags` | src/main/java/de/photon/aacadditionpro/modules/checks/packetanalysis/EqualRotationPattern.java:96-97 | A yaw or pitch that is not `==` the stored value makes the packet ignored |
| `EqualRotationPattern.NaNRotationNeverFlags` | src/main/java/de/photon/aacadditionpro/modules/checks/packetanalysis/EqualRotationPattern.java:96-97 | A NaN yaw or pitch is never flagged, even with a repeated bit pattern |
| `EqualRotationPattern.FlagNeedsEqualRotation` | src/main/java/de/photon/aacadditionpro/modules/checks/packetanalysis/EqualRotationPattern.java:91-122 | A flag implies all of these: valid user, no vehicle, no recent teleport, equal yaw and pitch, recent movement, a completed world check that excuses nothing, and the expected flag clear |
| `EqualRotationPattern.SlimeBlockInLiquidNeverFlags` | src/main/java/de/photon/aacadditionpro/modules/checks/packetanalysis/EqualRotationPattern.java:106-108 | Hitbox in liquid above a slime block: the world check excuses the packet and it is not flagged |
| `EqualRotationPattern.ChangedHitboxNeverFlags` | src/main/java/de/photon/aacadditionpro/modules/checks/packetanalysis/EqualRotationPattern.java:109-112 | On MC188, a non-1.8 client touching a changed-hitbox material is excused and not flagged |
| `EqualRotationPattern.NoHitboxExceptionAfter188` | src/main/java/de/photon/aacadditionpro/modules/checks/packetanalysis/EqualRotationPattern.java:55-61 | On every supported server other than MC188, the world check excuses exactly the slime-block landing |
| `EqualRotationPattern.IncompleteCallChangesNothing` | src/main/java/de/photon/aacadditionpro/modules/checks/packetanalysis/EqualRotationPattern.java:124-129 | A timed-out, interrupted or failed main-thread call flags nothing and keeps the expected flag |
| `EqualRotationPattern.UnexpectedEqualRotationIsFlagged` | src/main/java/de/photon/aacadditionpro/modules/checks/packetanalysis/EqualRotationPattern.java:120-122 | With every check passed and the expected flag clear, the packet is flagged and the flag stays clear |
| `EqualRotationPattern.ExpectedSuppressesExactlyOne` | src/main/java/de/photon/aacadditionpro/modules/checks/packetanalysis/EqualRotationPattern.java:115-117 | With the expected flag set, the first flaggable packet is consumed and clears the flag, and the identical next packet is flagged |
| `EqualRotationPattern.ExpectedFlagOnlyConsumed` | src/main/java/de/photon/aacadditionpro/modules/checks/packetanalysis/EqualRotationPattern.java:113-118 | The expected flag changes exactly when an occurrence is consumed, and consumption needs the flag set |
| `EqualRotationPattern.VaryingRotationsNeverFlag` | src/main/java/de/photon/aacadditionpro/modules/checks/packetanalysis/EqualRotationPattern.java:94-97 | Over any run in which no packet repeats the rotation stored at its own step, no flag is raised |
| `EqualRotationPattern.TrackedVaryingRotationsNeverFlag` | src/main/java/de/photon/aacadditionpro/modules/checks/packetanalysis/EqualRotationPattern.java:94-97 | When the stored rotation at each step is the previous packet's, a run whose packets each differ from their predecessor (and the first from the initial stored rotation) raises no flag |
| `EqualRotationPattern.EveryUnexplainedRepeatIsFlagged` | src/main/java/de/photon/aacadditionpro/modules/checks/packetanalysis/EqualRotationPattern.java:113-122 | Over a run whose packets all pass every check against their own step's stored rotation, each is flagged except one when the expected flag was set |
| `EqualRotationPattern.HitboxInMaterials` | src/main/java/de/photon/aacadditionpro/modules/checks/packetanalysis/EqualRotationPattern.java:112 | The hitbox is in the materials exactly when the set of materials it touches meets the given set |
| `EqualRotationPattern.WorldAllowsFlag` | src/main/java/de/photon/aacadditionpro/modules/checks/packetanalysis/EqualRotationPattern.java:105-112 | Unless the server is MC188 with a newer client and a non-empty changed-hitbox set, the world check excuses exactly the landing into liquid on a slime block |
| `EqualRotationPattern.GuardHolds` | src/main/java/de/photon/aacadditionpro/modules/checks/packetanalysis/EqualRotationPattern.java:91-99 | A packet passing the guard has no NaN yaw or pitch, nor a NaN stored rotation |
| `EqualRotationPattern.Decide` | src/main/java/de/photon/aacadditionpro/modules/checks/packetanalysis/EqualRotationPattern.java:91-129 | Ignored exactly when the guard fails; discarded exactly when the guard holds and the main-thread call did not complete; consumed or flagged exactly when the guard holds, the call completed and the world excuses nothing; consumed only with the expected flag set, flagged only with it clear |
| `ServerVersions.UnsupportedVersions` | src/main/java/de/photon/aacadditionpro/util/world/MaterialUtil.java:32-56 | The versions that reach the `UnknownMinecraftVersion` branches are exactly MC19, MC110 and MC111 |
| `VersionControl.ConfigBoolean` | src/main/java/de/photon/aacadditionproold/modules/clientcontrol/VersionControl.java:134 | An unset configuration path reads as true; a set one reads as its value |
| `VersionControl.NewProtocolVersion` | src/main/java/de/photon/aacadditionproold/modules/clientcontrol/VersionControl.java:131-137 | A version keeps its name, server version and numbers; `allowed` is the configured `allowedVersions.<name>` value, default true |
| `VersionControl.ProtocolVersions` | src/main/java/de/photon/aacadditionproold/modules/clientcontrol/VersionControl.java:28-37 | The table has nine entries |
| `VersionControl.RegisteredTableShape` | src/main/java/de/photon/aacadditionproold/modules/clientcontrol/VersionControl.java:28-37 | Entry i is the i-th server version in release order and lists at least one protocol number |
| `VersionControl.RegisteredEntriesInBands` | src/main/java/de/photon/aacadditionproold/modules/clientcontrol/VersionControl.java:28-37 | Entry i's protocol numbers lie in an interval that ends before the interval of entry i+1 starts |
| `VersionControl.RegisteredNumbersDisjoint` | src/main/java/de/photon/aacadditionproold/modules/clientcontrol/VersionControl.java:28-37 | No protocol number is registered for two versions |
| `VersionControl.Lookup` | src/main/java/de/photon/aacadditionproold/modules/clientcontrol/VersionControl.java:45-53 | A found server version is that of some entry of the table |
| `VersionControl.LookupSound` | src/main/java/de/photon/aacadditionproold/modules/clientcontrol/VersionControl.java:45-53 | A found server version belongs to an entry listing the number; the result is null exactly when no entry lists it |
| `VersionControl.GetServerVersionFromProtocolVersion` | src/main/java/de/photon/aacadditionproold/modules/clientcontrol/VersionControl.java:45-53 | The loop with early return answers the first matching entry's server version, or null exactly when no entry lists the number |
| `VersionControl.LookupDisjoint` | src/main/java/de/photon/aacadditionproold/modules/clientcontrol/VersionControl.java:47-51 | On a table with disjoint number sets, the lookup answers the one entry listing the number, wherever it stands |
| `VersionControl.RegisteredLookup` | src/main/java/de/photon/aacadditionproold/modules/clientcontrol/VersionControl.java:45-53 | For the registered table, the lookup answers v if and only if an entry of version v lists the number, whatever the order |
| `VersionControl.RegisteredLookupOfEntry` | src/main/java/de/photon/aacadditionproold/modules/clientcontrol/VersionControl.java:47-51 | A number of registered entry i looks up as entry i's server version |
| `VersionControl.RegisteredNumbersListed` | src/main/java/de/photon/aacadditionproold/modules/clientcontrol/VersionControl.java:28-37 | The 25 registered numbers are exactly the numbers some entry lists |
| `VersionControl.RegisteredLookupUnknown` | src/main/java/de/photon/aacadditionproold/modules/clientcontrol/VersionControl.java:52 | A number outside the registered ones looks up as null |
| `VersionControl.RegisteredLookupExamples` | src/main/java/de/photon/aacadditionproold/modules/clientcontrol/VersionControl.java:28-37 | 47 is MC188, 109 is MC19, 340 is MC112 and 753 is MC116 |
| `VersionControl.UnknownLookupExamples` | src/main/java/de/photon/aacadditionproold/modules/clientcontrol/VersionControl.java:47-52 | 0, 341 and 754 look up as null |
| `VersionControl.Enable` | src/main/java/de/photon/aacadditionproold/modules/clientcontrol/VersionControl.java:55-84 | Fails exactly when the message is null. Otherwise the kick message is the configured one with the placeholder replaced by the allowed names joined with ", ", and the blocked numbers are an ascending permutation of the non-allowed versions' numbers |
| `VersionControl.AllowedNames` | src/main/java/de/photon/aacadditionproold/modules/clientcontrol/VersionControl.java:59-65 | At most one name per table entry is listed |
| `VersionControl.BlockedNumbers` | src/main/java/de/photon/aacadditionproold/modules/clientcontrol/VersionControl.java:60-69 | When every entry is allowed, nothing is blocked |
| `VersionControl.KickMessage` | src/main/java/de/photon/aacadditionproold/modules/clientcontrol/VersionControl.java:72-77 | A message without `{supportedVersions}` comes out unchanged |
| `VersionControl.BlockedNumbersMembers` | src/main/java/de/photon/aacadditionproold/modules/clientcontrol/VersionControl.java:62-69 | A number is blocked if and only if some version that is not allowed lists it |
| `VersionControl.AllowedNeverBlocked` | src/main/java/de/photon/aacadditionproold/modules/clientcontrol/VersionControl.java:62-69 | With disjoint number sets, no number of an allowed version is blocked |
| `VersionControl.AllowedNamesInTableOrder` | src/main/java/de/photon/aacadditionproold/modules/clientcontrol/VersionControl.java:59-65 | The listed names are the names of the allowed versions, at strictly increasing table positions, and none is missing |
| `VersionControl.KickMessageWithoutPlaceholder` | src/main/java/de/photon/aacadditionproold/modules/clientcontrol/VersionControl.java:72-77 | A message without `{supportedVersions}` is kept unchanged |
| `VersionControl.KickMessageWithOnePlaceholder` | src/main/java/de/photon/aacadditionproold/modules/clientcontrol/VersionControl.java:72-77 | A message with a single `{supportedVersions}` gets the joined allowed names in its place |
| `VersionControl.EverythingAllowed` | src/main/java/de/photon/aacadditionproold/modules/clientcontrol/VersionControl.java:62-69 | When all versions are allowed, every name is listed in order and nothing is blocked |
| `VersionControl.DefaultConfiguration` | src/main/java/de/photon/aacadditionproold/modules/clientcontrol/VersionControl.java:28-37 | With no configured switches, the names "1.8" to "1.16" are listed and no number is blocked |
| `VersionControl.Equals` | src/main/java/de/photon/aacadditionproold/modules/clientcontrol/VersionControl.java:139-146 | Only another protocol version can be equal; a version is equal to itself |
| `VersionControl.HashCode` | src/main/java/de/photon/aacadditionproold/modules/clientcontrol/VersionControl.java:148-152 | The hash is a Java `int` congruent to 31 plus the server version's hash modulo 2^32 |
| `VersionControl.Int32` | src/main/java/de/photon/aacadditionproold/modules/clientcontrol/VersionControl.java:149-152 | The hash wraps into the Java `int` range, congruent modulo 2^32 |
| `VersionControl.EqualsIsEquivalence` | src/main/java/de/photon/aacadditionproold/modules/clientcontrol/VersionControl.java:139-152 | `equals` holds iff the server versions are equal; it is reflexive, symmetric and transitive; false for null and other classes; equal versions have equal hash codes |
| `VersionControl.RegisteredEntriesDistinct` | src/main/java/de/photon/aacadditionproold/modules/clientcontrol/VersionControl.java:28-37 | No two registered entries are `equals`, so the immutable set keeps all nine |
| `JavaStrings.EndsWith` | src/main/java/de/photon/aacadditionpro/util/world/MaterialUtil.java:68 | A string ends with a suffix only if it is at least as long |
| `JavaStrings.ReplaceAll` | src/main/java/de/photon/aacadditionproold/modules/clientcontrol/VersionControl.java:77 | Replacing by a string of the target's length keeps the length |
| `JavaStrings.Join` | src/main/java/de/photon/aacadditionproold/modules/clientcontrol/VersionControl.java:77 | The joined string starts with the first part, followed by the separator when there is a second part |
| `JavaStrings.EndsWithIsTailSlice` | src/main/java/de/photon/aacadditionpro/util/world/MaterialUtil.java:68 | `endsWith` holds exactly when the last characters of the name are the suffix |
| `JavaStrings.ReplaceAllNoOccurrence` | src/main/java/de/photon/aacadditionproold/modules/clientcontrol/VersionControl.java:77 | `replace` leaves a string without the target unchanged |
| `JavaStrings.ReplaceAllIdentity` | src/main/java/de/photon/aacadditionproold/modules/clientcontrol/VersionControl.java:77 | Replacing the target by itself changes nothing |
| `JavaStrings.ReplaceAllFirstOccurrence` | src/main/java/de/photon/aacadditionproold/modules/clientcontrol/VersionControl.java:77 | The first occurrence becomes the replacement, the text before it is kept, and the scan resumes after it |
| `JavaStrings.JoinAppend` | src/main/java/de/photon/aacadditionproold/modules/clientcontrol/VersionControl.java:77 | Joining one more name appends the separator and the name |
| `JavaLists.Sort` | src/main/java/de/photon/aacadditionproold/modules/clientcontrol/VersionControl.java:80 | Sorting keeps the length |
| `JavaLists.InsertSortedPermutation` | src/main/java/de/photon/aacadditionproold/modules/clientcontrol/VersionControl.java:80 | Inserting into an ascending list keeps it ascending and adds exactly the element |
| `JavaLists.SortSortedPermutation` | src/main/java/de/photon/aacadditionproold/modules/clientcontrol/VersionControl.java:80 | The sorted list is ascending and a permutation of the input |
| `JavaLists.SortedPermutationUnique` | src/main/java/de/photon/aacadditionproold/modules/clientcontrol/VersionControl.java:80 | Two ascending lists with the same elements are equal |
| `JavaLists.SortIsTheSortedPermutation` | src/main/java/de/photon/aacadditionproold/modules/clientcontrol/VersionControl.java:80 | Whatever algorithm `List.sort` uses, its ascending permutation is the modelled one |
| `MaterialUtil.EndsWithAnyIndex` | src/main/java/de/photon/aacadditionpro/util/world/MaterialUtil.java:67-72 | A name ends with one of the suffixes if and only if some index of the suffix list matches |
| `MaterialUtil.GetMaterialsEndingWith` | src/main/java/de/photon/aacadditionpro/util/world/MaterialUtil.java:63-75 | The nested loops with `break` return exactly the materials whose name ends with at least one suffix; no suffixes give the empty set |
| `MaterialUtil.EndsWithOne` | src/main/java/de/photon/aacadditionpro/util/world/MaterialUtil.java:48 | Filtering on one suffix keeps exactly the materials that end with it |
| `MaterialUtil.EndsWithTwo` | src/main/java/de/photon/aacadditionpro/util/world/MaterialUtil.java:30 | Filtering on two suffixes keeps exactly the materials ending with either |
| `MaterialUtil.LoadTables` | src/main/java/de/photon/aacadditionpro/util/world/MaterialUtil.java:25-61 | The static block fails exactly on unsupported versions; otherwise it builds the liquids, the free-space containers (with the corrected suffix) and the allowed materials of that version |
| `MaterialUtil.Liquids` | src/main/java/de/photon/aacadditionpro/util/world/MaterialUtil.java:32-57 | Fails exactly on unsupported versions; otherwise water and lava are liquids |
| `MaterialUtil.FreeSpaceContainersAllowedMaterials` | src/main/java/de/photon/aacadditionpro/util/world/MaterialUtil.java:29-57 | Fails exactly on unsupported versions; otherwise it contains the common part (air, the chests, the anvil, slabs and stairs) |
| `MaterialUtil.FreeSpaceContainersAsWritten` | src/main/java/de/photon/aacadditionpro/util/world/MaterialUtil.java:26-27 | Contains the three chests |
| `MaterialUtil.FreeSpaceContainers` | src/main/java/de/photon/aacadditionpro/util/world/MaterialUtil.java:26-27 | Contains the three chests |
| `MaterialUtil.SpawnerMaterial` | src/main/java/de/photon/aacadditionpro/util/world/MaterialUtil.java:83-90 | The spawner is `MOB_SPAWNER` exactly before MC113 and `SPAWNER` otherwise |
| `MaterialUtil.LiquidsByVersion` | src/main/java/de/photon/aacadditionpro/util/world/MaterialUtil.java:32-57 | The liquids are water, lava and both stationary forms on MC188/MC112, water and lava from MC113, and an error otherwise |
| `MaterialUtil.NoShulkerBokName` | src/main/java/de/photon/aacadditionpro/util/world/MaterialUtil.java:27 | No material name ends with "SHULKER_BOK" |
| `MaterialUtil.FreeSpaceContainersAsWrittenMissesShulkerBoxes` | src/main/java/de/photon/aacadditionpro/util/world/MaterialUtil.java:26-27 | As written, the free-space containers are only the three chests, and the shulker box is missing |
| `MaterialUtil.FreeSpaceContainersMembers` | src/main/java/de/photon/aacadditionpro/util/world/MaterialUtil.java:26-27 | With "SHULKER_BOX", the containers are the three chests and every material ending with that suffix, including both shulker boxes |
| `MaterialUtil.AllowedMaterialsAlwaysHold` | src/main/java/de/photon/aacadditionpro/util/world/MaterialUtil.java:29-30 | Every supported version allows air, the three chests, the anvil and every `_SLAB` and `_STAIRS` material |
| `MaterialUtil.EnchantingTableAndCaveAirFrom113` | src/main/java/de/photon/aacadditionpro/util/world/MaterialUtil.java:33-51 | Cave air and `ENCHANTING_TABLE` are allowed if and only if the version is MC113 or later; `ENCHANTMENT_TABLE` exactly before |
| `MaterialUtil.SignIsNoOtherAllowedMaterial` | src/main/java/de/photon/aacadditionpro/util/world/MaterialUtil.java:29-51 | A `_SIGN` material is not allowed by any other rule |
| `MaterialUtil.SignsAllowedFrom114` | src/main/java/de/photon/aacadditionpro/util/world/MaterialUtil.java:45-48 | A `_SIGN` material is allowed if and only if the version is MC114, MC115 or MC116 |
| `MaterialUtil.IsReallyOccluding` | src/main/java/de/photon/aacadditionpro/util/world/MaterialUtil.java:80-94 | Fails exactly on unsupported versions. Otherwise it is true iff the material is not the barrier, not that version's spawner, and occluding per Bukkit |
| `MaterialUtil.BarrierAndSpawnerNeverOcclude` | src/main/java/de/photon/aacadditionpro/util/world/MaterialUtil.java:80-94 | On every supported version, barrier and spawner never occlude, and every other material answers Bukkit's `isOccluding` |
| `MaterialUtil.ContainsMaterials` | src/main/java/de/photon/aacadditionpro/util/world/MaterialUtil.java:99-105 | True if and only if some searched-for material is in the searched collection |
| `MaterialUtil.ContainsLiquids` | src/main/java/de/photon/aacadditionpro/util/world/MaterialUtil.java:110-113 | True if and only if the collection holds one of the version's liquids |
| `RotationTypeTwoPattern.Score` | src/main/java/de/photon/aacadditionproold/modules/checks/scaffold/RotationTypeTwoPattern.java:28-34 | The score is 0 or 2, and 2 exactly above the threshold |
| `RotationTypeTwoPattern.NoScore` | src/main/java/de/photon/aacadditionproold/modules/checks/scaffold/RotationTypeTwoPattern.java:23 | The disabled consumer answers 0, never more than the enabled one |
| `RotationTypeTwoPattern.ScoreIsThreshold` | src/main/java/de/photon/aacadditionproold/modules/checks/scaffold/RotationTypeTwoPattern.java:28-34 | The enabled score is 2 exactly above 7 and 0 exactly at or below it, so always 0 or 2 |
| `RotationTypeTwoPattern.ThresholdIsNotSuspicious` | src/main/java/de/photon/aacadditionproold/modules/checks/scaffold/RotationTypeTwoPattern.java:20-33 | An angle sum of exactly 7 scores 0; 7.000001 scores 2 |
| `RotationTypeTwoPattern.ScoreMonotone` | src/main/java/de/photon/aacadditionproold/modules/checks/scaffold/RotationTypeTwoPattern.java:29-33 | A larger angle sum never scores less |
| `RotationTypeTwoPattern.RotationTypeTwo.constructor` | src/main/java/de/photon/aacadditionproold/modules/checks/scaffold/RotationTypeTwoPattern.java:23 | Before `enable` the consumer answers 0 for every angle |
| `RotationTypeTwoPattern.RotationTypeTwo.Enable` | src/main/java/de/photon/aacadditionproold/modules/checks/scaffold/RotationTypeTwoPattern.java:26-35 | After `enable` the consumer is the threshold score for every angle, whatever came before (so enabling twice equals enabling once) |
| `RotationTypeTwoPattern.RotationTypeTwo.Disable` | src/main/java/de/photon/aacadditionproold/modules/checks/scaffold/RotationTypeTwoPattern.java:38-41 | After `disable` the consumer answers 0 for every angle, whatever came before (so enabling then disabling restores the initial behaviour) |
| `RotationTypeTwoPattern.RotationTypeTwo.Apply` | src/main/java/de/photon/aacadditionproold/modules/checks/scaffold/RotationTypeTwoPattern.java:22-23 | Applying the installed consumer gives 0 or 2: 0 when disabled, and 2 exactly above the threshold when enabled |

## Left out

- ProtocolLib packet registration, `PacketEvent` and the packet wrappers: a look packet is the input `LookPacket` (yaw, pitch).
- `User.isUserInvalid`, `isInsideVehicle`, `hasTeleportedRecently`, `hasMovedRecently`: these are inputs (`PlayerFacts`). The two recency queries are functions of the window length, without a timestamp model, so their monotonicity in the window is not modelled.
- `EntityUtil.isHitboxInLiquids`, `isHitboxInMaterials`, the block below the feet and `ServerVersion.getClientServerVersion`: these are inputs (`WorldView`); the hitbox geometry is the set of materials it touches.
- `Bukkit.getScheduler().callSyncMethod(...).get(10, SECONDS)`: concurrency. Its outcome is the input `SyncCall`: completed, timed out, interrupted or failed. The interrupt flag set again after an `InterruptedException` is not modelled.
- Logging, `VerboseSender` messages and the two `flag` callbacks: only the (player, violation level) of each `flag` call is recorded. The violation-level manager's scoring and decay are not part of this model.
- `ServerVersion.getActiveServerVersion()` is a parameter. The `ServerVersion`, `User`, `UserManager`, `DataKey` and `EntityUtil` sources are not part of this model.
- Bukkit's `Material`: a fixed enumeration of 26 materials. It covers those the tables name, an ordinary block (`STONE`), and slabs, stairs, signs and shulker boxes for the suffix filters. `Material.values()` is iterated as a set, so its order is not modelled. The order cannot change the resulting set. The null `Material.getMaterial` returns for a name missing on a version is not modelled.
- `Material.isOccluding()` is a parameter `Material -> bool`.
- `ServerVersion`: the packet-analysis check imports `de.photon.aacadditionpro.ServerVersion` (`EqualRotationPattern.java:8`), while `MaterialUtil.java:4` and `VersionControl.java:6` import `de.photon.aacadditionproold.ServerVersion`. Neither enum's constant list is part of this model. One enumeration of nine constants, MC188, MC19, MC110, MC111 and MC112 to MC116, stands for both. The rows for `ChangedHitboxMaterials` and `ServerVersions.UnsupportedVersions` rest on that list.
- `CancellationException` from `Future.get`: it is not caught at `EqualRotationPattern.java:124-129` and propagates out of `onPacketReceiving`; `SyncCall` has no case for it.
- Configuration reads become inputs: the `allowedVersions` switches are a map, and the kick message is an `Option`. The ViaVersion `requestValueChange` writes become the returned `ViaVersionChanges`.
- The enum's identity `hashCode` is a parameter of `HashCode`.
- The `User` argument of the scaffold consumer: the installed lambdas read it only for the verbose message.
- RotationTypeTwoPattern.Score: the angle is an unbounded `real`, so NaN and the infinities are not modelled. In Java, NaN and negative infinity score 0, and positive infinity scores 2.
- Module boilerplate: `getConfigString`, `getModuleType`, `isSubModule`, `getDependencies` and the singleton `instance` fields.

## Findings

The suffix in `MaterialUtil.java:27` is written `"SHULKER_BOK"`, so it
matches no material. `LoadTables`, and with it the rest of the model, uses the
intended suffix `"SHULKER_BOX"`; `FreeSpaceContainersAsWritten` keeps the
spelling of the source.

| source | as written | input that shows it | evidently intended | confidence | as-written member | corrected member |
|---|---|---|---|---|---|---|
| src/main/java/de/photon/aacadditionpro/util/world/MaterialUtil.java:27 | `getMaterialsEndingWith("SHULKER_BOK")` | the material `SHULKER_BOX` (or `WHITE_SHULKER_BOX`): its name does not end with "SHULKER_BOK", so it is missing from `FREE_SPACE_CONTAINERS` | suffix "SHULKER_BOX", so shulker boxes count as containers that need free space | not executed | `MaterialUtil.FreeSpaceContainersAsWrittenMissesShulkerBoxes` | `MaterialUtil.FreeSpaceContainersMembers` |
