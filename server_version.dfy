/**
 * The server versions the plugin distinguishes. Every version-keyed table
 * in the model is a total function on this enumeration that answers
 * `UnknownMinecraftVersion` for the versions it does not support.
 */
module ServerVersions {

  datatype ServerVersion = MC188 | MC19 | MC110 | MC111 | MC112 | MC113 | MC114 | MC115 | MC116
  {
    /** Position of the version in release order. */
    function Ordinal(): (n: nat)
      ensures n < 9
    {
      match this
      case MC188 => 0
      case MC19 => 1
      case MC110 => 2
      case MC111 => 3
      case MC112 => 4
      case MC113 => 5
      case MC114 => 6
      case MC115 => 7
      case MC116 => 8
    }

    /** True for MC113 and every later version (the "flattened" material names). */
    predicate AtLeast113()
    {
      Ordinal() >= MC113.Ordinal()
    }

    /** The versions the material and hitbox tables have an entry for: MC188 and MC112 to MC116. */
    predicate IsSupported()
    {
      this == MC188 || Ordinal() >= MC112.Ordinal()
    }
  }

  /** The exception the version switches throw in their `default` branch. */
  datatype VersionError = UnknownMinecraftVersion

  /** Release order is a strict order: two versions with the same ordinal are the same version. */
  lemma OrdinalInjective(a: ServerVersion, b: ServerVersion)
    ensures a.Ordinal() == b.Ordinal() <==> a == b
  {
  }

  /** MC19, MC110 and MC111 are exactly the versions without a table entry. */
  lemma UnsupportedVersions(v: ServerVersion)
    ensures !v.IsSupported() <==> v in {MC19, MC110, MC111}
  {
  }
}
