/**
 `incrementVersion` of index.js: split the version at '.', read each piece as a
 number, and write back major, minor and patch + 1 joined with '.'. Only the first three
 pieces are read; any further pieces are ignored. Pieces are read here as
 non-empty runs of decimal digits, the case in which `Number` gives a whole number.
 */
module Versioning {
  import opened Wrappers
  import opened Text

  datatype Version = Version(major: nat, minor: nat, patch: nat)

  /** The three numbers in decimal, joined with '.'. */
  function Format(v: Version): string
  {
    NatToString(v.major) + "." + NatToString(v.minor) + "." + NatToString(v.patch)
  }

  /** The version split at '.', each piece read as a number, the first three kept. */
  function ParseVersion(s: string): (r: Option<Version>)
    ensures var parts := Split(s, '.');
      r.Some? <==> |parts| >= 3 && forall i :: 0 <= i < 3 ==> parts[i] != [] && AllDigits(parts[i])
    ensures var parts := Split(s, '.');
      r.Some? ==>
        && |parts| >= 3 && AllDigits(parts[0]) && AllDigits(parts[1]) && AllDigits(parts[2])
        && r.value == Version(DigitsValue(parts[0]), DigitsValue(parts[1]), DigitsValue(parts[2]))
  {
    var parts := Split(s, '.');
    if |parts| < 3 then None
    else match (ParseNat(parts[0]), ParseNat(parts[1]), ParseNat(parts[2]))
      case (Some(major), Some(minor), Some(patch)) => Some(Version(major, minor, patch))
      case _ => None
  }

  /** A formatted version reads back as itself. */
  lemma ParseFormat(v: Version)
    ensures ParseVersion(Format(v)) == Some(v)
  {
    var a, b, c := NatToString(v.major), NatToString(v.minor), NatToString(v.patch);
    assert '.' !in a && '.' !in b && '.' !in c;
    assert Format(v) == a + ['.'] + (b + ['.'] + c);
    SplitAtFirst(a, '.', b + ['.'] + c);
    SplitAtFirst(b, '.', c);
    SplitNoSeparator(c, '.');
  }

  /**
   `incrementVersion`: the patch number goes up by one, the major and minor numbers are
   kept, and nothing carries over. `None` stands for a version whose first three pieces
   are not all numbers.
   */
  function IncrementVersion(currentVersion: string): (r: Option<string>)
    ensures r.Some? <==> ParseVersion(currentVersion).Some?
    ensures r.Some? ==>
      var v := ParseVersion(currentVersion).value;
      ParseVersion(r.value) == Some(Version(v.major, v.minor, v.patch + 1))
  {
    match ParseVersion(currentVersion)
    case None => None
    case Some(v) =>
      var next := Version(v.major, v.minor, v.patch + 1);
      ParseFormat(next);
      Some(Format(next))
  }

  /** Incrementing a well-formed version string. */
  lemma IncrementFormatted(v: Version)
    ensures IncrementVersion(Format(v)) == Some(Format(Version(v.major, v.minor, v.patch + 1)))
  {
    ParseFormat(v);
  }

  /** 2.9.9 becomes 2.9.10: the patch number grows past 9 without carrying into the minor number. */
  lemma NoCarryExample()
    ensures IncrementVersion("2.9.9") == Some("2.9.10")
  {
    assert NatToString(2) == "2" && NatToString(9) == "9";
    assert NatToString(10) == NatToString(1) + "0" == "10";
    assert Format(Version(2, 9, 9)) == "2.9.9";
    assert Format(Version(2, 9, 10)) == "2.9.10";
    IncrementFormatted(Version(2, 9, 9));
  }

  /** Pieces after the third are ignored: "1.2.3.4" increments to "1.2.4". */
  lemma ExtraPiecesIgnored(v: Version, rest: string)
    ensures IncrementVersion(Format(v) + "." + rest) == Some(Format(Version(v.major, v.minor, v.patch + 1)))
  {
    var a, b, c := NatToString(v.major), NatToString(v.minor), NatToString(v.patch);
    assert '.' !in a && '.' !in b && '.' !in c;
    assert Format(v) + "." + rest == a + ['.'] + (b + ['.'] + (c + ['.'] + rest));
    SplitAtFirst(c, '.', rest);
    SplitAtFirst(b, '.', c + ['.'] + rest);
    SplitAtFirst(a, '.', b + ['.'] + (c + ['.'] + rest));
    assert ParseVersion(Format(v) + "." + rest) == Some(v);
  }
}
