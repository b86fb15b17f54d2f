/**
 * The flavor of a database server: its vendor and its version triple, how
 * both are read from the server's self-description, and the feature
 * predicates that the rest of the toolkit branches on.
 *
 * The vendor/version implementation is pinned down by the table-driven
 * tests of flavor_test.go; each table is restated as a lemma at the end of
 * this module.
 */
module Flavors {
  import opened Text
  import opened Outcomes

  /** The largest value Go's 64-bit signed integer parsing accepts. */
  const MaxInt64: int := 0x7FFF_FFFF_FFFF_FFFF

  datatype Vendor = Unknown | MySQL | Percona | MariaDB {
    /** The lower-case name used in a flavor's string form. */
    function Name(): string {
      match this
      case Unknown => "unknown"
      case MySQL => "mysql"
      case Percona => "percona"
      case MariaDB => "mariadb"
    }
  }

  /** A (major, minor, patch) version triple, Go's [3]int. */
  datatype Triple = Triple(major: int, minor: int, patch: int)

  const ZeroVersion: Triple := Triple(0, 0, 0)

  /** Lexicographic `>=` on version triples. */
  predicate AtLeast(v: Triple, w: Triple) {
    v.major > w.major
    || (v.major == w.major && v.minor > w.minor)
    || (v.major == w.major && v.minor == w.minor && v.patch >= w.patch)
  }

  datatype Flavor = Flavor(vendor: Vendor, major: int, minor: int, patch: int) {

    function Version(): Triple {
      Triple(major, minor, patch)
    }

    /** "vendor:major.minor", with ".patch" appended only when patch is non-zero. */
    function String(): string {
      vendor.Name() + ":" + IntToString(major) + "." + IntToString(minor)
      + (if patch != 0 then "." + IntToString(patch) else "")
    }

    predicate Known() {
      vendor != Unknown && major != 0
    }

    /** The (vendor, major, minor) combinations the toolkit supports; patch is irrelevant. */
    predicate Supported() {
      match vendor
      case MySQL | Percona => (major == 5 && 5 <= minor <= 7) || (major == 8 && minor == 0)
      case MariaDB => major == 10 && 1 <= minor <= 5
      case Unknown => false
    }

    predicate VendorMinVersion(v: Vendor, ma: int, mi: int, pa: int) {
      vendor == v && AtLeast(Version(), Triple(ma, mi, pa))
    }

    /** MySQL and Percona Server share their dialect and metadata layout. */
    predicate IsMySQLish() {
      vendor == MySQL || vendor == Percona
    }

    predicate MySQLishMinVersion(ma: int, mi: int, pa: int) {
      IsMySQLish() && AtLeast(Version(), Triple(ma, mi, pa))
    }

    /** Fractional-second temporal columns; assumed available unless a MySQLish server is older than 5.6. */
    predicate FractionalTimestamps() {
      !IsMySQLish() || MySQLishMinVersion(5, 6, 0)
    }

    predicate HasDataDictionary() {
      MySQLishMinVersion(8, 0, 0)
    }

    function DefaultUtf8mb4Collation(): string {
      if MySQLishMinVersion(8, 0, 0) then "utf8mb4_0900_ai_ci" else "utf8mb4_general_ci"
    }

    predicate AlwaysShowTableCollation(charSet: string) {
      MySQLishMinVersion(8, 0, 0) && charSet == "utf8mb4"
    }

    predicate GeneratedColumns() {
      MySQLishMinVersion(5, 7, 0) || VendorMinVersion(MariaDB, 10, 2, 0)
    }

    /** SHOW CREATE TABLE lists foreign keys sorted: MySQLish 5.6 up to 8.0.18, always otherwise. */
    predicate SortedForeignKeys() {
      !IsMySQLish() || (MySQLishMinVersion(5, 6, 0) && !MySQLishMinVersion(8, 0, 19))
    }

    predicate OmitIntDisplayWidth() {
      MySQLishMinVersion(8, 0, 19)
    }
  }

  const FlavorUnknown: Flavor := Flavor(Unknown, 0, 0, 0)
  const FlavorMySQL55: Flavor := Flavor(MySQL, 5, 5, 0)
  const FlavorMySQL56: Flavor := Flavor(MySQL, 5, 6, 0)
  const FlavorMySQL57: Flavor := Flavor(MySQL, 5, 7, 0)
  const FlavorMySQL80: Flavor := Flavor(MySQL, 8, 0, 0)
  const FlavorPercona55: Flavor := Flavor(Percona, 5, 5, 0)
  const FlavorPercona56: Flavor := Flavor(Percona, 5, 6, 0)
  const FlavorPercona57: Flavor := Flavor(Percona, 5, 7, 0)
  const FlavorPercona80: Flavor := Flavor(Percona, 8, 0, 0)
  const FlavorMariaDB101: Flavor := Flavor(MariaDB, 10, 1, 0)
  const FlavorMariaDB102: Flavor := Flavor(MariaDB, 10, 2, 0)
  const FlavorMariaDB103: Flavor := Flavor(MariaDB, 10, 3, 0)
  const FlavorMariaDB104: Flavor := Flavor(MariaDB, 10, 4, 0)
  const FlavorMariaDB105: Flavor := Flavor(MariaDB, 10, 5, 0)

  // ---------------------------------------------------------------------
  // Vendor classification

  /** Case-insensitive keyword search, MariaDB before Percona before MySQL. */
  function ParseVendor(comment: string): (v: Vendor)
    ensures v == MariaDB <==> Contains(ToLower(comment), "mariadb")
    ensures v == Percona <==> !Contains(ToLower(comment), "mariadb") && Contains(ToLower(comment), "percona")
    ensures v == MySQL <==>
              !Contains(ToLower(comment), "mariadb") && !Contains(ToLower(comment), "percona") &&
              Contains(ToLower(comment), "mysql")
    ensures v != Unknown ==> Contains(ToLower(comment), v.Name())
  {
    var lower := ToLower(comment);
    if Contains(lower, "mariadb") then MariaDB
    else if Contains(lower, "percona") then Percona
    else if Contains(lower, "mysql") then MySQL
    else Unknown
  }

  lemma {:induction false} ToLowerIdempotent(s: string)
    ensures ToLower(ToLower(s)) == ToLower(s)
  {
    var t := ToLower(s);
    assert forall i :: 0 <= i < |s| ==> ToLower(t)[i] == t[i];
  }

  /** Classification ignores letter case entirely. */
  lemma ParseVendorIgnoresCase(comment: string)
    ensures ParseVendor(ToLower(comment)) == ParseVendor(comment)
  {
    ToLowerIdempotent(comment);
  }

  /** A "MariaDB" keyword, in any case and anywhere in the comment, wins over every other keyword. */
  lemma MariaDBKeywordWins(pre: string, keyword: string, post: string)
    requires ToLower(keyword) == "mariadb"
    ensures ParseVendor(pre + keyword + post) == MariaDB
  {
    var lower := ToLower(pre + keyword + post);
    ToLowerAppend(pre + keyword, post);
    ToLowerAppend(pre, keyword);
    assert lower == ToLower(pre) + "mariadb" + ToLower(post);
    assert lower[|pre|..|pre| + 7] == "mariadb";
    assert OccursAt(lower, "mariadb", |pre|);
    ContainsIffOccurs(lower, "mariadb");
  }

  // ---------------------------------------------------------------------
  // Version parsing

  /** One numeric field: a non-empty run of digits no larger than MaxInt64. */
  function ParseField(s: string): (r: Option<int>)
    ensures r.Some? ==> 0 <= r.value <= MaxInt64
  {
    match ParseDecimal(s)
    case Some(n) => if n <= MaxInt64 then Some(n) else None
    case None => None
  }

  /** The version triple named by the leading fields of a version string, if they are well formed. */
  function VersionFields(text: string): Option<Triple> {
    var fields := Split(Before(text, '-'), '.');
    if |fields| < 3 then None
    else
      match (ParseField(fields[0]), ParseField(fields[1]), ParseField(fields[2]))
      case (Some(a), Some(b), Some(c)) => Some(Triple(a, b, c))
      case _ => None
  }

  /**
   * The leading major.minor.patch of a version string; anything from the
   * first '-' on is a vendor or package suffix. (0,0,0) when malformed.
   */
  function ParseVersion(text: string): (v: Triple)
    ensures 0 <= v.major <= MaxInt64 && 0 <= v.minor <= MaxInt64 && 0 <= v.patch <= MaxInt64
    ensures v != ZeroVersion ==> VersionFields(text) == Some(v)
  {
    VersionFields(text).GetOr(ZeroVersion)
  }

  /** The text a version triple prints as. */
  function VersionText(a: nat, b: nat, c: nat): string {
    NatToString(a) + "." + NatToString(b) + "." + NatToString(c)
  }

  lemma DigitsHaveNoSeparator(s: string, c: char)
    requires AllDigits(s) && !IsDigit(c)
    ensures c !in s
  {
  }

  /**
   * A printed version triple, followed by any '-' suffix, parses back to
   * the triple: "5.6.40-84.0" gives (5, 6, 40).
   */
  lemma ParseVersionRoundTrip(a: nat, b: nat, c: nat, suffix: string)
    requires a <= MaxInt64 && b <= MaxInt64 && c <= MaxInt64
    requires suffix == [] || suffix[0] == '-'
    ensures ParseVersion(VersionText(a, b, c) + suffix) == Triple(a, b, c)
  {
    var sa, sb, sc := NatToString(a), NatToString(b), NatToString(c);
    var x := VersionText(a, b, c);
    DigitsHaveNoSeparator(sa, '.');
    DigitsHaveNoSeparator(sb, '.');
    DigitsHaveNoSeparator(sc, '.');
    DigitsHaveNoSeparator(sa, '-');
    DigitsHaveNoSeparator(sb, '-');
    DigitsHaveNoSeparator(sc, '-');
    assert '-' !in x;
    BeforeOfFreePrefix(x, suffix, '-');
    assert x == sa + ['.'] + (sb + ['.'] + sc);
    SplitHead(sa, '.', sb + ['.'] + sc);
    SplitHead(sb, '.', sc);
    SplitNoSep(sc, '.');
    assert Split(x, '.') == [sa, sb, sc];
    NatToStringRoundTrip(a);
    NatToStringRoundTrip(b);
    NatToStringRoundTrip(c);
  }

  /** Text with fewer than three dotted fields before any '-' has no version. */
  lemma TooFewFieldsGiveZero(text: string)
    requires |Split(Before(text, '-'), '.')| < 3
    ensures ParseVersion(text) == ZeroVersion
  {
  }

  // ---------------------------------------------------------------------
  // Flavor construction

  /** The vendor a bare version number implies when the comment names none. */
  function FallbackVendor(major: int): Vendor {
    if major == 10 then MariaDB
    else if major == 5 || major == 8 then MySQL
    else Unknown
  }

  /** The flavor of a server, from @@version and @@version_comment. */
  function ParseFlavor(versionText: string, comment: string): (f: Flavor)
    ensures f.Version() == ParseVersion(versionText)
    ensures ParseVendor(comment) != Unknown ==> f.vendor == ParseVendor(comment)
    ensures ParseVendor(comment) == Unknown ==> f.vendor == FallbackVendor(f.major)
  {
    var v := ParseVersion(versionText);
    var vendor := ParseVendor(comment);
    Flavor(if vendor == Unknown then FallbackVendor(v.major) else vendor, v.major, v.minor, v.patch)
  }

  /** With no vendor keyword in the comment, the result is the unknown sentinel exactly when the version did not parse. */
  lemma ParseFlavorUnknownIffNoVersion(versionText: string, comment: string)
    requires ParseVendor(comment) == Unknown
    ensures ParseFlavor(versionText, comment) == FlavorUnknown <==> ParseVersion(versionText) == ZeroVersion
  {
  }

  /** A parsed flavor is Known exactly when the major version is non-zero and some vendor was named or implied. */
  lemma ParseFlavorKnown(versionText: string, comment: string)
    ensures ParseFlavor(versionText, comment).Known()
        <==> ParseVersion(versionText).major != 0
             && (ParseVendor(comment) != Unknown || ParseVersion(versionText).major in {5, 8, 10})
  {
  }

  /** Explicit version parts: the first three, with missing ones 0. */
  function PadVersion(parts: seq<int>): (v: Triple)
    ensures |parts| >= 1 ==> v.major == parts[0]
    ensures v.minor == (if |parts| >= 2 then parts[1] else 0)
    ensures v.patch == (if |parts| >= 3 then parts[2] else 0)
  {
    Triple(if |parts| >= 1 then parts[0] else 0,
           if |parts| >= 2 then parts[1] else 0,
           if |parts| >= 3 then parts[2] else 0)
  }

  /** The text after the first ':' of `s` (empty when there is none). */
  function AfterColon(s: string): string {
    var head := Before(s, ':');
    if |head| < |s| then s[|head| + 1..] else ""
  }

  /** One field of a "major[.minor[.patch]]" spec: its number, or 0 when absent or malformed. */
  function SpecField(fields: seq<string>, i: nat): int {
    if i < |fields| then ParseField(fields[i]).GetOr(0) else 0
  }

  /** The version in the "vendor:major[.minor[.patch]]" form, or (0,0,0) without a colon. */
  function BaseVersion(base: string): Triple {
    if ':' in base then
      var fields := Split(AfterColon(base), '.');
      Triple(SpecField(fields, 0), SpecField(fields, 1), SpecField(fields, 2))
    else ZeroVersion
  }

  /**
   * NewFlavor(base, parts...): the vendor is the keyword found anywhere in
   * `base`; explicit parts, when given, replace any version in `base`.
   */
  function NewFlavor(base: string, parts: seq<int>): (f: Flavor)
    ensures f.vendor == ParseVendor(base)
    ensures |parts| > 0 ==> f.Version() == PadVersion(parts)
    ensures |parts| == 0 ==> f.Version() == BaseVersion(base)
  {
    var v := if |parts| > 0 then PadVersion(parts) else BaseVersion(base);
    Flavor(ParseVendor(base), v.major, v.minor, v.patch)
  }

  // ---------------------------------------------------------------------
  // String and NewFlavor are inverse

  predicate IsLetter(c: char) {
    ('a' <= c <= 'z') || ('A' <= c <= 'Z')
  }

  predicate NoLetters(s: string) {
    forall i :: 0 <= i < |s| ==> !IsLetter(s[i])
  }

  predicate AllLetters(s: string) {
    forall i :: 0 <= i < |s| ==> IsLetter(s[i])
  }

  /** A word of letters found in `name + tail`, where `tail` has no letters, lies inside `name`. */
  lemma {:induction false} WordStaysInName(name: string, tail: string, word: string, i: int)
    requires NoLetters(tail) && AllLetters(word) && |word| > 0
    requires OccursAt(name + tail, word, i)
    ensures OccursAt(name, word, i)
  {
    var s := name + tail;
    var last := i + |word| - 1;
    assert s[last] == word[|word| - 1];
    assert IsLetter(s[last]);
    assert last < |name|;
    assert s[i..i + |word|] == name[i..i + |word|];
  }

  lemma {:induction false} ContainsInName(name: string, tail: string, word: string)
    requires NoLetters(tail) && AllLetters(word) && |word| > 0
    ensures Contains(name + tail, word) <==> Contains(name, word)
  {
    ContainsIffOccurs(name + tail, word);
    ContainsIffOccurs(name, word);
    if i :| OccursAt(name + tail, word, i) {
      WordStaysInName(name, tail, word, i);
    }
    if i :| OccursAt(name, word, i) {
      assert (name + tail)[i..i + |word|] == name[i..i + |word|];
      assert OccursAt(name + tail, word, i);
    }
  }

  /** Which vendor keywords each vendor's own name contains. */
  lemma NameKeywords(v: Vendor)
    ensures Contains(v.Name(), "mariadb") <==> v == MariaDB
    ensures Contains(v.Name(), "percona") <==> v == Percona
    ensures Contains(v.Name(), "mysql") <==> v == MySQL
  {
    var name := v.Name();
    assert HasPrefix(name, name);
    if v != MariaDB { AbsentCharRulesOut(name, "mariadb", if v == MySQL then 1 else 0); }
    if v != Percona { AbsentCharRulesOut(name, "percona", 0); }
    if v != MySQL { AbsentCharRulesOut(name, "mysql", if v == MariaDB then 1 else 0); }
  }

  lemma NameIsLowerCase(v: Vendor)
    ensures ToLower(v.Name()) == v.Name()
  {
    assert NoUpper(v.Name());
    ToLowerKeepsNoUpper(v.Name());
  }

  /** Each vendor's name, written in the form of a flavor's string, classifies as that vendor. */
  lemma VendorOfName(v: Vendor, tail: string)
    requires NoLetters(tail)
    ensures ParseVendor(v.Name() + tail) == v
  {
    var s := v.Name() + tail;
    ToLowerAppend(v.Name(), tail);
    ToLowerKeepsNoUpper(tail);
    NameIsLowerCase(v);
    assert ToLower(s) == s;
    ContainsInName(v.Name(), tail, "mariadb");
    ContainsInName(v.Name(), tail, "percona");
    ContainsInName(v.Name(), tail, "mysql");
    NameKeywords(v);
  }

  /** The numeric part of a flavor's string form. */
  function NumbersText(f: Flavor): string
    requires f.major >= 0 && f.minor >= 0 && f.patch >= 0
  {
    NatToString(f.major) + "." + NatToString(f.minor)
    + (if f.patch != 0 then "." + NatToString(f.patch) else "")
  }

  lemma NumbersHaveNoLetters(f: Flavor)
    requires f.major >= 0 && f.minor >= 0 && f.patch >= 0
    ensures NoLetters(":" + NumbersText(f))
  {
    var tail := ":" + NumbersText(f);
    var sMa, sMi, sPa := NatToString(f.major), NatToString(f.minor), NatToString(f.patch);
    forall i | 0 <= i < |tail| ensures !IsLetter(tail[i]) {
      if f.patch != 0 {
        assert tail == ":" + sMa + "." + sMi + "." + sPa;
      } else {
        assert tail == ":" + sMa + "." + sMi;
      }
      assert IsDigit(tail[i]) || tail[i] == ':' || tail[i] == '.';
    }
  }

  /** The numeric part reads back field by field. */
  lemma NumbersRoundTrip(f: Flavor)
    requires 0 <= f.major <= MaxInt64 && 0 <= f.minor <= MaxInt64 && 0 <= f.patch <= MaxInt64
    ensures var fields := Split(NumbersText(f), '.');
      SpecField(fields, 0) == f.major && SpecField(fields, 1) == f.minor && SpecField(fields, 2) == f.patch
  {
    var sMa, sMi, sPa := NatToString(f.major), NatToString(f.minor), NatToString(f.patch);
    var nums := NumbersText(f);
    DigitsHaveNoSeparator(sMa, '.');
    DigitsHaveNoSeparator(sMi, '.');
    DigitsHaveNoSeparator(sPa, '.');
    NatToStringRoundTrip(f.major);
    NatToStringRoundTrip(f.minor);
    NatToStringRoundTrip(f.patch);
    if f.patch != 0 {
      assert nums == sMa + ['.'] + (sMi + ['.'] + sPa);
      SplitHead(sMa, '.', sMi + ['.'] + sPa);
      SplitHead(sMi, '.', sPa);
      SplitNoSep(sPa, '.');
      assert Split(nums, '.') == [sMa, sMi, sPa];
    } else {
      assert nums == sMa + ['.'] + sMi;
      SplitHead(sMa, '.', sMi);
      SplitNoSep(sMi, '.');
      assert Split(nums, '.') == [sMa, sMi];
    }
  }

  lemma {:induction false} AfterColonOfName(name: string, nums: string)
    requires ':' !in name
    ensures ':' in name + ":" + nums
    ensures AfterColon(name + ":" + nums) == nums
  {
    var s := name + ":" + nums;
    assert s[|name|] == ':';
    assert s == name + (":" + nums);
    BeforeOfFreePrefix(name, ":" + nums, ':');
  }

  lemma NameHasNoColon(v: Vendor)
    ensures ':' !in v.Name()
  {
    match v
    case Unknown => assert AllLetters("unknown");
    case MySQL => assert AllLetters("mysql");
    case Percona => assert AllLetters("percona");
    case MariaDB => assert AllLetters("mariadb");
  }

  /** A printed flavor reads back as the same flavor: NewFlavor(f.String()) == f. */
  lemma StringRoundTrip(f: Flavor)
    requires 0 <= f.major <= MaxInt64 && 0 <= f.minor <= MaxInt64 && 0 <= f.patch <= MaxInt64
    ensures NewFlavor(f.String(), []) == f
  {
    var nums := NumbersText(f);
    var text := f.String();
    assert text == f.vendor.Name() + ":" + nums;
    NumbersHaveNoLetters(f);
    assert text == f.vendor.Name() + (":" + nums);
    VendorOfName(f.vendor, ":" + nums);
    assert ParseVendor(text) == f.vendor;
    NameHasNoColon(f.vendor);
    AfterColonOfName(f.vendor.Name(), nums);
    NumbersRoundTrip(f);
    assert BaseVersion(text) == f.Version();
  }

  // ---------------------------------------------------------------------
  // Relations between the predicates

  /** VendorMinVersion is reflexive, and false whenever the vendors differ. */
  lemma VendorMinVersionReflexive(f: Flavor, v: Vendor)
    ensures f.VendorMinVersion(f.vendor, f.major, f.minor, f.patch)
    ensures v != f.vendor ==> forall ma, mi, pa :: !f.VendorMinVersion(v, ma, mi, pa)
  {
  }

  /** Raising the threshold can only turn a VendorMinVersion answer from true to false. */
  lemma VendorMinVersionMonotone(f: Flavor, v: Vendor, lo: Triple, hi: Triple)
    requires AtLeast(hi, lo)
    requires f.VendorMinVersion(v, hi.major, hi.minor, hi.patch)
    ensures f.VendorMinVersion(v, lo.major, lo.minor, lo.patch)
  {
  }

  /** MySQLishMinVersion is VendorMinVersion for MySQL or for Percona. */
  lemma MySQLishIsEitherVendor(f: Flavor, ma: int, mi: int, pa: int)
    ensures f.MySQLishMinVersion(ma, mi, pa)
        <==> f.VendorMinVersion(MySQL, ma, mi, pa) || f.VendorMinVersion(Percona, ma, mi, pa)
  {
  }

  /** The feature boundaries nest: each later feature implies the earlier ones. */
  lemma FeatureImplications(f: Flavor)
    ensures f.OmitIntDisplayWidth() ==> f.HasDataDictionary()
    ensures f.HasDataDictionary() ==> f.GeneratedColumns() && f.FractionalTimestamps()
    ensures f.HasDataDictionary() <==> f.DefaultUtf8mb4Collation() == "utf8mb4_0900_ai_ci"
    ensures f.AlwaysShowTableCollation("utf8mb4") <==> f.HasDataDictionary()
  {
  }

  /** For MySQLish flavors, sorted foreign keys is exactly the window [5.6, 8.0.19). */
  lemma SortedForeignKeysWindow(f: Flavor)
    requires f.IsMySQLish()
    ensures f.SortedForeignKeys() <==> f.FractionalTimestamps() && !f.OmitIntDisplayWidth()
  {
  }

  /** Every supported flavor is known. */
  lemma SupportedIsKnown(f: Flavor)
    ensures f.Supported() ==> f.Known()
  {
  }
}
