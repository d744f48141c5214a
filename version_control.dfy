/**
 * Client version control: the table of registered protocol versions, the
 * lookup from a client's protocol number to the server version it behaves
 * like, and the ViaVersion settings `enable` derives from the table: a kick
 * message naming the allowed versions and the sorted list of blocked
 * protocol numbers.
 */
module VersionControl {
  import opened Wrappers
  import opened ServerVersions
  import opened JavaStrings
  import opened JavaLists

  /**
   * A registered protocol version: its display name, whether the
   * configuration lets it join, the server version it is treated as and its
   * protocol numbers in registration order.
   */
  datatype ProtocolVersion = ProtocolVersion(
    name: string,
    allowed: bool,
    equivalentServerVersion: ServerVersion,
    versionNumbers: seq<int>)

  /** Configuration path prefix of the per-version `allowed` switch. */
  const ALLOWED_VERSIONS_PATH: string := "ClientControl.VersionControl.allowedVersions."

  /** The placeholder in the kick message that lists the supported versions. */
  const SUPPORTED_VERSIONS_PLACEHOLDER: string := "{supportedVersions}"

  /** The separator between the listed version names. */
  const VERSION_SEPARATOR: string := ", "

  /** `getConfig().getBoolean(path, true)`: the configured value, or true when the path is not set. */
  function ConfigBoolean(config: map<string, bool>, path: string): (b: bool)
    ensures path !in config ==> b
    ensures path in config ==> b == config[path]
  {
    if path in config then config[path] else true
  }

  /** The `ProtocolVersion` constructor: `allowed` comes from the configuration, defaulting to true. */
  function NewProtocolVersion(config: map<string, bool>, name: string, v: ServerVersion, numbers: seq<int>): (p: ProtocolVersion)
    ensures p.name == name && p.equivalentServerVersion == v && p.versionNumbers == numbers
    ensures p.allowed == ConfigBoolean(config, ALLOWED_VERSIONS_PATH + name)
  {
    ProtocolVersion(name, ConfigBoolean(config, ALLOWED_VERSIONS_PATH + name), v, numbers)
  }

  /** `PROTOCOL_VERSIONS`, in registration order (an `ImmutableSet` iterates in insertion order). */
  function ProtocolVersions(config: map<string, bool>): (table: seq<ProtocolVersion>)
    ensures |table| == 9
  {
    [ NewProtocolVersion(config, "1.8", MC188, [47]),
      NewProtocolVersion(config, "1.9", MC19, [107, 108, 109, 110]),
      NewProtocolVersion(config, "1.10", MC110, [210]),
      NewProtocolVersion(config, "1.11", MC111, [315, 316]),
      NewProtocolVersion(config, "1.12", MC112, [335, 338, 340]),
      NewProtocolVersion(config, "1.13", MC113, [393, 401, 404]),
      NewProtocolVersion(config, "1.14", MC114, [477, 480, 485, 490, 498]),
      NewProtocolVersion(config, "1.15", MC115, [573, 575]),
      NewProtocolVersion(config, "1.16", MC116, [735, 736, 751, 753]) ]
  }

  /** The table holds one entry per server version, in release order, each with at least one protocol number. */
  lemma RegisteredTableShape(config: map<string, bool>, i: nat)
    requires i < 9
    ensures ProtocolVersions(config)[i].equivalentServerVersion.Ordinal() == i
    ensures |ProtocolVersions(config)[i].versionNumbers| > 0
  {
  }

  /** No protocol number is registered for two versions. */
  predicate NumbersDisjoint(versions: seq<ProtocolVersion>)
  {
    forall i, j, n :: 0 <= i < |versions| && 0 <= j < |versions| && i != j && n in versions[i].versionNumbers
      ==> n !in versions[j].versionNumbers
  }

  /** Every registered number lies in the band `[lo, hi]` of its entry. */
  predicate InBand(p: ProtocolVersion, lo: int, hi: int)
  {
    forall n :: n in p.versionNumbers ==> lo <= n <= hi
  }

  /** The bands of the registered table, one per entry, increasing and non-overlapping. */
  function BandLow(i: nat): int
  {
    [47, 107, 210, 315, 335, 393, 477, 573, 735][if i < 9 then i else 0]
  }

  function BandHigh(i: nat): int
  {
    [47, 110, 210, 316, 340, 404, 498, 575, 753][if i < 9 then i else 0]
  }

  /** Every entry of the registered table lies inside its band. */
  lemma RegisteredEntriesInBands(config: map<string, bool>, i: nat)
    requires i < 9
    ensures InBand(ProtocolVersions(config)[i], BandLow(i), BandHigh(i))
  {
  }

  /** Registered protocol numbers are never shared: the table's number sets are pairwise disjoint. */
  lemma RegisteredNumbersDisjoint(config: map<string, bool>)
    ensures NumbersDisjoint(ProtocolVersions(config))
  {
    var table := ProtocolVersions(config);
    forall i, j, n | 0 <= i < |table| && 0 <= j < |table| && i != j && n in table[i].versionNumbers
      ensures n !in table[j].versionNumbers
    {
      RegisteredEntriesInBands(config, i);
      RegisteredEntriesInBands(config, j);
      if i < j {
        BandsIncrease(i, j);
      } else {
        BandsIncrease(j, i);
      }
    }
  }

  /** An earlier band ends before a later one starts. */
  lemma BandsIncrease(i: nat, j: nat)
    requires i < j < 9
    ensures BandHigh(i) < BandLow(j)
  {
  }

  /** The first entry holding `n`, searching in table order. */
  function Lookup(versions: seq<ProtocolVersion>, n: int): (r: Option<ServerVersion>)
    ensures r.Some? ==> exists i :: 0 <= i < |versions| && r.value == versions[i].equivalentServerVersion
    decreases |versions|
  {
    if |versions| == 0 then None
    else if n in versions[0].versionNumbers then Some(versions[0].equivalentServerVersion)
    else Lookup(versions[1..], n)
  }

  /**
   * The lookup answers the server version of an entry listing `n`, and
   * answers None exactly when no entry lists `n`.
   */
  lemma {:induction false} LookupSound(versions: seq<ProtocolVersion>, n: int)
    ensures Lookup(versions, n).Some? ==>
      exists i :: 0 <= i < |versions| && n in versions[i].versionNumbers
               && Lookup(versions, n).value == versions[i].equivalentServerVersion
    ensures Lookup(versions, n).None? <==> forall i :: 0 <= i < |versions| ==> n !in versions[i].versionNumbers
    decreases |versions|
  {
    if |versions| > 0 && n !in versions[0].versionNumbers {
      var tail := versions[1..];
      LookupSound(tail, n);
      assert forall i :: 1 <= i < |versions| ==> tail[i - 1] == versions[i];
      if Lookup(tail, n).Some? {
        var i :| 0 <= i < |tail| && n in tail[i].versionNumbers && Lookup(tail, n).value == tail[i].equivalentServerVersion;
        assert versions[i + 1] == tail[i];
      }
    }
  }

  /**
   * `getServerVersionFromProtocolVersion`: the server version of the first
   * registered version listing the protocol number, or null (None).
   */
  method GetServerVersionFromProtocolVersion(versions: seq<ProtocolVersion>, protocolVersion: int)
    returns (r: Option<ServerVersion>)
    ensures r == Lookup(versions, protocolVersion)
    ensures r.Some? ==> exists i :: 0 <= i < |versions| && protocolVersion in versions[i].versionNumbers
                                 && r.value == versions[i].equivalentServerVersion
    ensures r.None? <==> forall i :: 0 <= i < |versions| ==> protocolVersion !in versions[i].versionNumbers
  {
    var i := 0;
    while i < |versions|
      invariant 0 <= i <= |versions|
      invariant Lookup(versions, protocolVersion) == Lookup(versions[i..], protocolVersion)
    {
      if protocolVersion in versions[i].versionNumbers {
        LookupSound(versions, protocolVersion);
        return Some(versions[i].equivalentServerVersion);
      }
      assert versions[i..][1..] == versions[i + 1..];
      i := i + 1;
    }
    LookupSound(versions, protocolVersion);
    return None;
  }

  /** On a table with disjoint number sets the lookup finds the only entry holding `n`, wherever it stands. */
  lemma {:induction false} LookupDisjoint(versions: seq<ProtocolVersion>, n: int, i: nat)
    requires NumbersDisjoint(versions)
    requires i < |versions| && n in versions[i].versionNumbers
    ensures Lookup(versions, n) == Some(versions[i].equivalentServerVersion)
    decreases |versions|
  {
    if i > 0 {
      assert n !in versions[0].versionNumbers;
      var tail := versions[1..];
      assert forall a :: 0 <= a < |tail| ==> tail[a] == versions[a + 1];
      assert NumbersDisjoint(tail);
      LookupDisjoint(tail, n, i - 1);
    }
  }

  /**
   * For the registered table, the lookup answers `v` exactly when some entry
   * of version `v` lists the number, so its result does not depend on the
   * iteration order.
   */
  lemma RegisteredLookup(config: map<string, bool>, n: int, v: ServerVersion)
    ensures Lookup(ProtocolVersions(config), n) == Some(v)
        <==> exists i :: 0 <= i < 9 && n in ProtocolVersions(config)[i].versionNumbers
                      && ProtocolVersions(config)[i].equivalentServerVersion == v
  {
    var table := ProtocolVersions(config);
    RegisteredNumbersDisjoint(config);
    LookupSound(table, n);
    if i :| 0 <= i < 9 && n in table[i].versionNumbers && table[i].equivalentServerVersion == v {
      LookupDisjoint(table, n, i);
    }
  }

  /** A number listed by entry `i` of the registered table is looked up as that entry's server version. */
  lemma RegisteredLookupOfEntry(config: map<string, bool>, i: nat, n: int)
    requires i < 9 && n in ProtocolVersions(config)[i].versionNumbers
    ensures Lookup(ProtocolVersions(config), n) == Some(ProtocolVersions(config)[i].equivalentServerVersion)
  {
    RegisteredNumbersDisjoint(config);
    LookupDisjoint(ProtocolVersions(config), n, i);
  }

  /** Every protocol number the table registers. */
  const REGISTERED_NUMBERS: set<int> :=
    {47, 107, 108, 109, 110, 210, 315, 316, 335, 338, 340, 393, 401, 404,
     477, 480, 485, 490, 498, 573, 575, 735, 736, 751, 753}

  /** The registered numbers are exactly those the table's entries list. */
  lemma RegisteredNumbersListed(config: map<string, bool>, n: int)
    ensures n in REGISTERED_NUMBERS <==> exists i :: 0 <= i < 9 && n in ProtocolVersions(config)[i].versionNumbers
  {
    var table := ProtocolVersions(config);
    if n in REGISTERED_NUMBERS {
      if n == 47 { assert n in table[0].versionNumbers; }
      else if n <= 110 { assert n in table[1].versionNumbers; }
      else if n == 210 { assert n in table[2].versionNumbers; }
      else if n <= 316 { assert n in table[3].versionNumbers; }
      else if n <= 340 { assert n in table[4].versionNumbers; }
      else if n <= 404 { assert n in table[5].versionNumbers; }
      else if n <= 498 { assert n in table[6].versionNumbers; }
      else if n <= 575 { assert n in table[7].versionNumbers; }
      else { assert n in table[8].versionNumbers; }
    }
  }

  /** A number the table does not register is unknown. */
  lemma RegisteredLookupUnknown(config: map<string, bool>, n: int)
    requires n !in REGISTERED_NUMBERS
    ensures Lookup(ProtocolVersions(config), n) == None
  {
    RegisteredNumbersListed(config, n);
    LookupSound(ProtocolVersions(config), n);
  }

  /** Sample numbers: 47 is 1.8, 109 is 1.9, 340 is 1.12, 753 is 1.16. */
  lemma RegisteredLookupExamples(config: map<string, bool>)
    ensures var table := ProtocolVersions(config);
      && Lookup(table, 47) == Some(MC188)
      && Lookup(table, 109) == Some(MC19)
      && Lookup(table, 340) == Some(MC112)
      && Lookup(table, 753) == Some(MC116)
  {
    var table := ProtocolVersions(config);
    assert Lookup(table, 47) == Some(MC188) by { RegisteredLookupOfEntry(config, 0, 47); }
    assert Lookup(table, 109) == Some(MC19) by { RegisteredLookupOfEntry(config, 1, 109); }
    assert Lookup(table, 340) == Some(MC112) by { RegisteredLookupOfEntry(config, 4, 340); }
    assert Lookup(table, 753) == Some(MC116) by { RegisteredLookupOfEntry(config, 8, 753); }
  }

  /** Sample numbers that no version registers: 0, 341 and 754. */
  lemma UnknownLookupExamples(config: map<string, bool>)
    ensures var table := ProtocolVersions(config);
      Lookup(table, 0) == None && Lookup(table, 341) == None && Lookup(table, 754) == None
  {
    var table := ProtocolVersions(config);
    assert Lookup(table, 0) == None by { RegisteredLookupUnknown(config, 0); }
    assert Lookup(table, 341) == None by { RegisteredLookupUnknown(config, 341); }
    assert Lookup(table, 754) == None by { RegisteredLookupUnknown(config, 754); }
  }

  // ---------------------------------------------------------------------------
  // enable
  // ---------------------------------------------------------------------------

  /** The names of the allowed versions, in table order. */
  function AllowedNames(versions: seq<ProtocolVersion>): (names: seq<string>)
    ensures |names| <= |versions|
    decreases |versions|
  {
    if |versions| == 0 then []
    else
      var last := versions[|versions| - 1];
      AllowedNames(versions[..|versions| - 1]) + (if last.allowed then [last.name] else [])
  }

  /** The protocol numbers of the versions that are not allowed, in table order. */
  function BlockedNumbers(versions: seq<ProtocolVersion>): (numbers: seq<int>)
    ensures (forall i :: 0 <= i < |versions| ==> versions[i].allowed) ==> numbers == []
    decreases |versions|
  {
    if |versions| == 0 then []
    else
      var last := versions[|versions| - 1];
      BlockedNumbers(versions[..|versions| - 1]) + (if last.allowed then [] else last.versionNumbers)
  }

  /** The two ViaVersion settings `enable` requests. */
  datatype ViaVersionChanges = ViaVersionChanges(blockDisconnectMsg: string, blockProtocols: seq<int>)

  /** `Preconditions.checkNotNull` failing on a missing kick message. */
  datatype EnableError = MessageIsNull

  /** The kick message: every placeholder replaced by the allowed names joined with ", ". */
  function KickMessage(message: string, versions: seq<ProtocolVersion>): (kick: string)
    ensures (forall i: nat :: !OccursAt(message, SUPPORTED_VERSIONS_PLACEHOLDER, i)) ==> kick == message
  {
    var list := Join(VERSION_SEPARATOR, AllowedNames(versions));
    assert (forall i: nat :: !OccursAt(message, SUPPORTED_VERSIONS_PLACEHOLDER, i))
        ==> ReplaceAll(message, SUPPORTED_VERSIONS_PLACEHOLDER, list) == message by {
      if forall i: nat :: !OccursAt(message, SUPPORTED_VERSIONS_PLACEHOLDER, i) {
        ReplaceAllNoOccurrence(message, SUPPORTED_VERSIONS_PLACEHOLDER, list);
      }
    }
    ReplaceAll(message, SUPPORTED_VERSIONS_PLACEHOLDER, list)
  }

  /**
   * `enable`: partitions the table into allowed names and blocked numbers,
   * builds the kick message from the configured message (failing when it is
   * missing) and sorts the blocked numbers ascending.
   */
  method Enable(versions: seq<ProtocolVersion>, message: Option<string>)
    returns (r: Result<ViaVersionChanges, EnableError>)
    ensures r.Failure? <==> message.None?
    ensures r.Success? ==> r.value.blockDisconnectMsg == KickMessage(message.value, versions)
    ensures r.Success? ==> r.value.blockProtocols == Sort(BlockedNumbers(versions))
    ensures r.Success? ==> Sorted(r.value.blockProtocols)
    ensures r.Success? ==> multiset(r.value.blockProtocols) == multiset(BlockedNumbers(versions))
  {
    var versionStrings: seq<string> := [];
    var blockedProtocolNumbers: seq<int> := [];
    for i := 0 to |versions|
      invariant versionStrings == AllowedNames(versions[..i])
      invariant blockedProtocolNumbers == BlockedNumbers(versions[..i])
    {
      assert versions[..i + 1][..i] == versions[..i];
      if versions[i].allowed {
        versionStrings := versionStrings + [versions[i].name];
      } else {
        blockedProtocolNumbers := blockedProtocolNumbers + versions[i].versionNumbers;
      }
    }
    assert versions[..|versions|] == versions;
    if message.None? {
      return Failure(MessageIsNull);
    }
    var kickMessage := ReplaceAll(message.value, SUPPORTED_VERSIONS_PLACEHOLDER, Join(VERSION_SEPARATOR, versionStrings));
    blockedProtocolNumbers := Sort(blockedProtocolNumbers);
    SortSortedPermutation(BlockedNumbers(versions));
    return Success(ViaVersionChanges(kickMessage, blockedProtocolNumbers));
  }

  /** A number is blocked exactly when some version that is not allowed lists it. */
  lemma {:induction false} BlockedNumbersMembers(versions: seq<ProtocolVersion>, n: int)
    ensures n in BlockedNumbers(versions)
        <==> exists i :: 0 <= i < |versions| && !versions[i].allowed && n in versions[i].versionNumbers
    decreases |versions|
  {
    if |versions| > 0 {
      var init := versions[..|versions| - 1];
      BlockedNumbersMembers(init, n);
      assert forall i :: 0 <= i < |init| ==> init[i] == versions[i];
    }
  }

  /** On a table with disjoint number sets, no number of an allowed version is ever blocked. */
  lemma AllowedNeverBlocked(versions: seq<ProtocolVersion>, i: nat, n: int)
    requires NumbersDisjoint(versions)
    requires i < |versions| && versions[i].allowed && n in versions[i].versionNumbers
    ensures n !in BlockedNumbers(versions)
  {
    BlockedNumbersMembers(versions, n);
  }

  /**
   * The allowed names are exactly the names of the allowed versions, in
   * table order: the returned indices pick them out, increasing, and miss no
   * allowed version.
   */
  lemma {:induction false} AllowedNamesInTableOrder(versions: seq<ProtocolVersion>) returns (idx: seq<nat>)
    ensures |idx| == |AllowedNames(versions)|
    ensures forall k :: 0 <= k < |idx| ==>
      (idx[k] < |versions| && versions[idx[k]].allowed && AllowedNames(versions)[k] == versions[idx[k]].name)
    ensures forall k, l :: 0 <= k < l < |idx| ==> idx[k] < idx[l]
    ensures forall i :: 0 <= i < |versions| && versions[i].allowed ==> i in idx
    decreases |versions|
  {
    if |versions| == 0 {
      idx := [];
    } else {
      var init := versions[..|versions| - 1];
      var last := |versions| - 1;
      var prev := AllowedNamesInTableOrder(init);
      var names, prevNames := AllowedNames(versions), AllowedNames(init);
      assert forall i :: 0 <= i < |init| ==> init[i] == versions[i];
      if versions[last].allowed {
        assert names == prevNames + [versions[last].name];
        idx := prev + [last];
        forall k | 0 <= k < |idx|
          ensures idx[k] < |versions| && versions[idx[k]].allowed && names[k] == versions[idx[k]].name
        {
          if k < |prev| {
            assert idx[k] == prev[k] && names[k] == prevNames[k];
          }
        }
      } else {
        assert names == prevNames;
        idx := prev;
      }
    }
  }

  /** Every configured message's result: a message without the placeholder is kept as it is. */
  lemma KickMessageWithoutPlaceholder(message: string, versions: seq<ProtocolVersion>)
    requires forall i: nat :: !OccursAt(message, SUPPORTED_VERSIONS_PLACEHOLDER, i)
    ensures KickMessage(message, versions) == message
  {
    ReplaceAllNoOccurrence(message, SUPPORTED_VERSIONS_PLACEHOLDER, Join(VERSION_SEPARATOR, AllowedNames(versions)));
  }

  /** A message that is the placeholder between two placeholder-free texts gets the version list in its place. */
  lemma KickMessageWithOnePlaceholder(before: string, after: string, versions: seq<ProtocolVersion>)
    requires forall i: nat :: i < |before| ==> !OccursAt(before + SUPPORTED_VERSIONS_PLACEHOLDER + after, SUPPORTED_VERSIONS_PLACEHOLDER, i)
    requires forall i: nat :: !OccursAt(after, SUPPORTED_VERSIONS_PLACEHOLDER, i)
    ensures KickMessage(before + SUPPORTED_VERSIONS_PLACEHOLDER + after, versions)
         == before + Join(VERSION_SEPARATOR, AllowedNames(versions)) + after
  {
    var list := Join(VERSION_SEPARATOR, AllowedNames(versions));
    ReplaceAllFirstOccurrence(before, SUPPORTED_VERSIONS_PLACEHOLDER, after, list);
    ReplaceAllNoOccurrence(after, SUPPORTED_VERSIONS_PLACEHOLDER, list);
  }

  /** When every version is allowed, all names are listed in order and nothing is blocked. */
  lemma {:induction false} EverythingAllowed(versions: seq<ProtocolVersion>)
    requires forall i :: 0 <= i < |versions| ==> versions[i].allowed
    ensures |AllowedNames(versions)| == |versions|
    ensures forall i :: 0 <= i < |versions| ==> AllowedNames(versions)[i] == versions[i].name
    ensures BlockedNumbers(versions) == []
    decreases |versions|
  {
    if |versions| > 0 {
      var init := versions[..|versions| - 1];
      assert forall i :: 0 <= i < |init| ==> init[i] == versions[i];
      EverythingAllowed(init);
    }
  }

  /** With nothing configured every version is allowed: all nine names are listed and nothing is blocked. */
  lemma DefaultConfiguration()
    ensures AllowedNames(ProtocolVersions(map[])) == ["1.8", "1.9", "1.10", "1.11", "1.12", "1.13", "1.14", "1.15", "1.16"]
    ensures BlockedNumbers(ProtocolVersions(map[])) == []
  {
    EverythingAllowed(ProtocolVersions(map[]));
  }

  // ---------------------------------------------------------------------------
  // equals / hashCode
  // ---------------------------------------------------------------------------

  /** The argument of `equals(Object)`: null, a `ProtocolVersion`, or an object of another class. */
  datatype JavaObject = Null | ProtocolVersionObject(version: ProtocolVersion) | OtherObject

  /** `ProtocolVersion.equals`: another `ProtocolVersion` of the same server version. */
  predicate Equals(a: ProtocolVersion, o: JavaObject)
    ensures Equals(a, o) ==> o.ProtocolVersionObject?
    ensures o == ProtocolVersionObject(a) ==> Equals(a, o)
  {
    match o
    case Null => false
    case OtherObject => false
    case ProtocolVersionObject(b) => a.equivalentServerVersion == b.equivalentServerVersion
  }

  /** `ProtocolVersion.hashCode`: `Objects.hash` of the server version, that is `31 + h` in 32-bit arithmetic. */
  function HashCode(a: ProtocolVersion, enumHash: ServerVersion -> int): (h: int)
    ensures -0x8000_0000 <= h < 0x8000_0000
    ensures (h - 31 - enumHash(a.equivalentServerVersion)) % 0x1_0000_0000 == 0
  {
    Int32(31 + enumHash(a.equivalentServerVersion))
  }

  /** Wraps an integer into the range of a Java `int`. */
  function Int32(x: int): (r: int)
    ensures -0x8000_0000 <= r < 0x8000_0000
    ensures (r - x) % 0x1_0000_0000 == 0
  {
    (x + 0x8000_0000) % 0x1_0000_0000 - 0x8000_0000
  }

  /**
   * `equals` is an equivalence relation on protocol versions that ignores
   * everything but the server version, never holds for null or another
   * class, and agrees with `hashCode`.
   */
  lemma EqualsIsEquivalence(a: ProtocolVersion, b: ProtocolVersion, c: ProtocolVersion, enumHash: ServerVersion -> int)
    ensures Equals(a, ProtocolVersionObject(a))
    ensures Equals(a, ProtocolVersionObject(b)) <==> Equals(b, ProtocolVersionObject(a))
    ensures Equals(a, ProtocolVersionObject(b)) && Equals(b, ProtocolVersionObject(c)) ==> Equals(a, ProtocolVersionObject(c))
    ensures Equals(a, ProtocolVersionObject(b)) <==> a.equivalentServerVersion == b.equivalentServerVersion
    ensures !Equals(a, Null) && !Equals(a, OtherObject)
    ensures Equals(a, ProtocolVersionObject(b)) ==> HashCode(a, enumHash) == HashCode(b, enumHash)
  {
  }

  /** No two registered entries are equal, so the `ImmutableSet` keeps all nine. */
  lemma RegisteredEntriesDistinct(config: map<string, bool>)
    ensures forall i, j :: 0 <= i < j < 9 ==>
      !Equals(ProtocolVersions(config)[i], ProtocolVersionObject(ProtocolVersions(config)[j]))
  {
    var table := ProtocolVersions(config);
    forall i, j | 0 <= i < j < 9
      ensures table[i].equivalentServerVersion != table[j].equivalentServerVersion
    {
      assert table[i].equivalentServerVersion.Ordinal() == i;
      assert table[j].equivalentServerVersion.Ordinal() == j;
    }
  }
}
