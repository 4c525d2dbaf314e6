/** The order on CPI artifact versions and the downgrade gate built on it. */
module CpiVersion {
  import opened Strings
  import opened Numerals

  datatype Version = Version(major: int, minor: int, micro: int, qualifier: string)

  const MAX_INT: int := 0x7fff_ffff_ffff_ffff

  /** strconv.Atoi: an optional sign, then decimal digits, within 64 bits. */
  function Atoi(s: string): Option<int> {
    var negative := s != "" && s[0] == '-';
    var digits := if s != "" && (s[0] == '+' || s[0] == '-') then s[1..] else s;
    if digits == "" || !Digits(digits) then None
    else
      var n: int := if negative then 0 - Value(digits) else Value(digits);
      if -MAX_INT - 1 <= n <= MAX_INT then Some(n) else None
  }

  /** strings.SplitN(s, ".", 4) */
  function Fields(s: string): (fields: seq<string>)
    ensures 1 <= |fields| <= 4
  {
    var pieces := Split(s, '.');
    if |pieces| <= 4 then pieces else pieces[..3] + [Unsplit(pieces[3..], '.')]
  }

  /** A field that is missing counts as zero. */
  function Number(fields: seq<string>, i: nat): Option<int> {
    if i < |fields| then Atoi(fields[i]) else Some(0)
  }

  /** A version with a field that is not a number is all qualifier. */
  function Parse(s: string): Version {
    var fields := Fields(s);
    match (Number(fields, 0), Number(fields, 1), Number(fields, 2))
    case (Some(major), Some(minor), Some(micro)) =>
      Version(major, minor, micro, if |fields| >= 4 then fields[3] else "")
    case _ => Version(0, 0, 0, s)
  }

  function IntCmp(a: int, b: int): int {
    if a < b then -1 else if a > b then 1 else 0
  }

  /** Qualifiers that are not both numbers count as equal. */
  function CompareQualifier(a: string, b: string): int {
    if a == b then 0
    else match (Atoi(a), Atoi(b))
      case (Some(x), Some(y)) => IntCmp(x, y)
      case _ => 0
  }

  function CompareVersions(x: Version, y: Version): int {
    if x.major != y.major then IntCmp(x.major, y.major)
    else if x.minor != y.minor then IntCmp(x.minor, y.minor)
    else if x.micro != y.micro then IntCmp(x.micro, y.micro)
    else CompareQualifier(x.qualifier, y.qualifier)
  }

  function Compare(a: string, b: string): int {
    CompareVersions(Parse(a), Parse(b))
  }

  /** Lexicographic order on (major, minor, micro). */
  predicate TripleAtMost(a: string, b: string) {
    var x, y := Parse(a), Parse(b);
    || x.major < y.major
    || (x.major == y.major && x.minor < y.minor)
    || (x.major == y.major && x.minor == y.minor && x.micro <= y.micro)
  }

  lemma CompareAntisymmetric(a: string, b: string)
    ensures Compare(a, b) == -Compare(b, a)
  {
    hide Parse, Atoi;
  }

  /** The strict part is transitive for all strings, parsable or not. */
  lemma LessTransitive(a: string, b: string, c: string)
    requires Compare(a, b) < 0 && Compare(b, c) < 0
    ensures Compare(a, c) < 0
  {
    hide Parse, Atoi;
  }

  /** Less-or-equal agrees with the numeric triple wherever the triples differ. */
  lemma CompareRefinesTriple(a: string, b: string)
    ensures Compare(a, b) <= 0 ==> TripleAtMost(a, b)
    ensures !TripleAtMost(b, a) ==> Compare(a, b) < 0
  {
  }

  /** The triples are totally ordered. */
  lemma TripleOrder(a: string, b: string)
    ensures TripleAtMost(a, b) || TripleAtMost(b, a)
    ensures TripleAtMost(a, b) && TripleAtMost(b, a) <==> SameTriple(a, b)
  {
    hide Parse;
  }

  // ----- What versions are written like -----

  /** What strconv.Atoi makes of a text: an optional sign and a numeral. */
  lemma AtoiIff(s: string, n: int)
    ensures Atoi(s) == Some(n) <==>
              && -MAX_INT - 1 <= n <= MAX_INT
              && ((n >= 0 && (IsNumeral(s, n) || (s != "" && s[0] == '+' && IsNumeral(s[1..], n))))
                  || (n <= 0 && s != "" && s[0] == '-' && IsNumeral(s[1..], -n)))
  {
    hide IsNumeral, Digits, Value;
    if n >= 0 { SignlessNumeral(s, n); DigitsIff(s, n); }
    if s != "" {
      if n >= 0 { DigitsIff(s[1..], n); }
      if n <= 0 { DigitsIff(s[1..], -n); }
    }
    StartsWithDigit(s);
  }

  lemma DigitsIff(s: string, n: nat)
    ensures IsNumeral(s, n) <==> s != "" && Digits(s) && Value(s) == n
  {
    if s != "" && Digits(s) && Value(s) == n { NumeralIs(s); }
    if IsNumeral(s, n) { NumeralDigits(s, n); }
  }

  lemma StartsWithDigit(s: string)
    ensures s != "" && Digits(s) ==> '0' <= s[0] <= '9'
  {
  }

  lemma SignlessNumeral(s: string, n: nat)
    ensures IsNumeral(s, n) ==> s != "" && s[0] != '+' && s[0] != '-'
  {
    DigitsIff(s, n);
    hide Value, IsNumeral;
  }

  lemma DecimalIsNumeral(n: nat)
    ensures IsNumeral(Decimal(n), n)
  {
    assert Decimal(n) == Zeros(0) + Decimal(n);
  }

  lemma FourFields(a: string, b: string, c: string, q: string)
    requires '.' !in a && '.' !in b && '.' !in c
    ensures Fields(a + ['.'] + (b + ['.'] + (c + ['.'] + q))) == [a, b, c, q]
  {
    SplitSingle(a, '.');
    SplitSingle(b, '.');
    SplitSingle(c, '.');
    SplitConcat(c, q, '.');
    SplitConcat(b, c + ['.'] + q, '.');
    SplitConcat(a, b + ['.'] + (c + ['.'] + q), '.');
    hide Split;
    var pieces := Split(a + ['.'] + (b + ['.'] + (c + ['.'] + q)), '.');
    assert pieces == [a] + ([b] + ([c] + Split(q, '.')));
    assert pieces[3..] == Split(q, '.') && pieces[..3] == [a, b, c];
    assert |pieces| == 4 ==> Split(q, '.') == [Split(q, '.')[0]] && Split(q, '.')[0] == q;
  }

  lemma FewerFields(a: string, b: string, c: string)
    requires '.' !in a && '.' !in b && '.' !in c
    ensures Fields(a) == [a] && Fields(a + ['.'] + b) == [a, b] && Fields(a + ['.'] + (b + ['.'] + c)) == [a, b, c]
  {
    SplitSingle(a, '.');
    SplitSingle(b, '.');
    SplitSingle(c, '.');
    SplitConcat(a, b, '.');
    SplitConcat(b, c, '.');
    SplitConcat(a, b + ['.'] + c, '.');
    hide Split;
  }

  lemma ParseFields(s: string, major: int, minor: int, micro: int)
    requires Atoi(Fields(s)[0]) == Some(major)
    requires if |Fields(s)| > 1 then Atoi(Fields(s)[1]) == Some(minor) else minor == 0
    requires if |Fields(s)| > 2 then Atoi(Fields(s)[2]) == Some(micro) else micro == 0
    ensures Parse(s) == Version(major, minor, micro, if |Fields(s)| > 3 then Fields(s)[3] else "")
  {
    hide Atoi, Fields;
  }

  /** A version written with up to three numbers and whatever follows them reads as just these; what is left out counts
      as zero or as nothing. */
  lemma ParseWritten(major: nat, minor: nat, micro: nat, qualifier: string)
    requires major <= MAX_INT && minor <= MAX_INT && micro <= MAX_INT
    ensures var a, b, c := Decimal(major), Decimal(minor), Decimal(micro);
            && Parse(a + ['.'] + (b + ['.'] + (c + ['.'] + qualifier))) == Version(major, minor, micro, qualifier)
            && Parse(a + ['.'] + (b + ['.'] + c)) == Version(major, minor, micro, "")
            && Parse(a + ['.'] + b) == Version(major, minor, 0, "")
            && Parse(a) == Version(major, 0, 0, "")
  {
    var a, b, c := Decimal(major), Decimal(minor), Decimal(micro);
    AtoiDecimal(major);
    AtoiDecimal(minor);
    AtoiDecimal(micro);
    FourFields(a, b, c, qualifier);
    FewerFields(a, b, c);
    hide *;
    ParseFields(a, major, 0, 0);
    ParseFields(a + ['.'] + b, major, minor, 0);
    ParseFields(a + ['.'] + (b + ['.'] + c), major, minor, micro);
    ParseFields(a + ['.'] + (b + ['.'] + (c + ['.'] + qualifier)), major, minor, micro);
  }

  /** A version one of whose first three fields is no number is all qualifier. */
  lemma ParseUnread(s: string, i: nat)
    requires i < 3 && i < |Split(s, '.')| && Atoi(Split(s, '.')[i]).None?
    ensures Parse(s) == Version(0, 0, 0, s)
  {
    hide Atoi, Split;
  }

  /** Between versions with the same numbers, numeric qualifiers decide, and any other compares as equal. */
  lemma QualifiersDecide(a: string, b: string)
    requires SameTriple(a, b)
    ensures Numeric(a) && Numeric(b) ==>
              (Compare(a, b) < 0 <==> Atoi(Parse(a).qualifier).value < Atoi(Parse(b).qualifier).value)
    ensures !Numeric(a) || !Numeric(b) ==> Compare(a, b) == 0
  {
    hide Parse, Atoi;
  }

  // ----- The downgrade gate -----

  /** What the target tenant answers for the artifact's current design-time version. */
  datatype Answer = Absent | Unreachable | Holds(version: string)

  datatype Verdict = Pass | Downgrade | Error

  function Gate(delivered: string, target: Answer): Verdict {
    match target
    case Absent => Pass
    case Unreachable => Error
    case Holds(version) => if Compare(delivered, version) < 0 then Downgrade else Pass
  }

  /** The versions a tenant held, oldest first, when each import passed the gate against the one before. */
  ghost predicate Imports(versions: seq<string>) {
    forall i | 0 <= i < |versions| - 1 :: Gate(versions[i + 1], Holds(versions[i])) == Pass
  }

  lemma {:induction false} GateKeepsTriple(versions: seq<string>, i: nat, j: nat)
    requires Imports(versions) && i <= j < |versions|
    ensures TripleAtMost(versions[i], versions[j])
    decreases j
  {
    hide Parse, Atoi, Compare;
    if i < j {
      GateKeepsTriple(versions, i, j - 1);
      assert Gate(versions[j - 1 + 1], Holds(versions[j - 1])) == Pass;
      CompareRefinesTriple(versions[j - 1], versions[j]);
      CompareAntisymmetric(versions[j - 1], versions[j]);
    }
  }

  // ----- Where the order is one -----

  lemma AtoiDigit(c: char)
    requires '0' <= c <= '9'
    ensures Atoi([c]) == Some((c - '0') as int)
  {
    assert [c][..0] == "";
    assert Value([c]) == (c - '0') as nat;
  }

  lemma AtoiDecimal(n: nat)
    requires n <= MAX_INT
    ensures Atoi(Decimal(n)) == Some(n) && '.' !in Decimal(n)
  {
    DecimalDigits(n);
    assert '0' <= Decimal(n)[0] <= '9';
  }

  lemma AtoiBounded(s: string)
    ensures Atoi(s).Some? ==> Atoi(s).value <= MAX_INT
  {
  }

  predicate Numeric(s: string) {
    Atoi(Parse(s).qualifier).Some?
  }

  predicate SameTriple(a: string, b: string) {
    Parse(a).major == Parse(b).major && Parse(a).minor == Parse(b).minor && Parse(a).micro == Parse(b).micro
  }

  /** The i-th field as far as it counts. */
  function Field(s: string, i: nat): string
    requires i < 3
  {
    var fields := Fields(s);
    if i < |fields| && Number(fields, 0).Some? && Number(fields, 1).Some? && Number(fields, 2).Some? then fields[i] else "0"
  }

  function WithQualifier(s: string, q: string): string {
    Unsplit([Field(s, 0), Field(s, 1), Field(s, 2), q], '.')
  }

  lemma FieldsPlain(s: string, i: nat)
    requires i < 3 && i < |Fields(s)|
    ensures '.' !in Fields(s)[i]
  {
    var pieces := Split(s, '.');
    assert Fields(s)[i] == pieces[i] && pieces[i] in pieces;
  }

  lemma FieldIsNumber(s: string, i: nat)
    requires i < 3
    ensures '.' !in Field(s, i)
    ensures Atoi(Field(s, i)) == Some(if i == 0 then Parse(s).major else if i == 1 then Parse(s).minor else Parse(s).micro)
  {
    AtoiDigit('0');
    assert ['0'] == "0";
    if i < |Fields(s)| { FieldsPlain(s, i); }
    hide Atoi, Fields, Split;
  }

  /** The same triple with any other qualifier is a version too. */
  lemma Requalified(s: string, q: string)
    requires '.' !in q
    ensures Parse(WithQualifier(s, q)) == Parse(s).(qualifier := q)
  {
    var fields := [Field(s, 0), Field(s, 1), Field(s, 2), q];
    FieldIsNumber(s, 0);
    FieldIsNumber(s, 1);
    FieldIsNumber(s, 2);
    hide Field, Atoi, Split;
    SplitUnsplit(fields, '.');
    assert Fields(WithQualifier(s, q)) == fields;
  }

  /** Importing c over b is harmless whatever came before b: b has a number to compare, or the triple rises, or c has no
      number that could be lower, or none could be higher. */
  predicate SafeStep(b: string, c: string) {
    || Numeric(b) || !SameTriple(b, c) || !Numeric(c)
    || Atoi(Parse(c).qualifier) == Some(MAX_INT)
  }

  lemma StepKeeps(a: string, b: string, c: string)
    requires Compare(a, b) <= 0 && Compare(b, c) <= 0 && SafeStep(b, c)
    ensures Compare(a, c) <= 0
  {
    AtoiBounded(Parse(a).qualifier);
    hide Parse, Atoi;
  }

  /** A version with the same triple that compares equal to b and above c. */
  lemma StepFails(b: string, c: string, n: nat) returns (a: string)
    requires !Numeric(b) && SameTriple(b, c) && Numeric(c) && Atoi(Parse(c).qualifier).value < n <= MAX_INT
    ensures Compare(a, b) == 0 && Compare(a, c) > 0
  {
    AtoiDecimal(n);
    a := WithQualifier(b, Decimal(n));
    Requalified(b, Decimal(n));
    hide Parse, Atoi, Decimal, WithQualifier;
  }

  /** An import that passes the gate keeps the order with everything before it exactly when it is a safe step. */
  lemma SafeStepIff(b: string, c: string)
    requires Compare(b, c) <= 0
    ensures (forall a | Compare(a, b) <= 0 :: Compare(a, c) <= 0) <==> SafeStep(b, c)
  {
    AtoiBounded(Parse(c).qualifier);
    hide Compare, Atoi, Parse;
    if SafeStep(b, c) {
      forall a | Compare(a, b) <= 0 ensures Compare(a, c) <= 0 { StepKeeps(a, b, c); }
    } else {
      var a := StepFails(b, c, MAX_INT);
    }
  }

  /** A version can be stepped over without losing the order exactly when its qualifier is a number; for every other
      version, a plain one included, there are imports that pass the gate and end below where they began. */
  lemma TransitiveThroughIff(b: string)
    ensures (forall a, c | Compare(a, b) <= 0 && Compare(b, c) <= 0 :: Compare(a, c) <= 0) <==> Numeric(b)
  {
    hide Compare, Parse, Atoi;
    if Numeric(b) {
      forall a, c | Compare(a, b) <= 0 && Compare(b, c) <= 0 ensures Compare(a, c) <= 0 { StepKeeps(a, b, c); }
    } else {
      var a, c := QualifierCanDecrease(b);
    }
  }

  /** The imports in question. */
  lemma QualifierCanDecrease(b: string) returns (a: string, c: string)
    requires !Numeric(b)
    ensures Compare(a, b) <= 0 && Compare(b, c) <= 0 && Compare(a, c) > 0 && Imports([a, b, c])
  {
    c := Below(b, 0);
    a := StepFails(b, c, 1);
    CompareAntisymmetric(a, b);
    CompareAntisymmetric(b, c);
    hide Compare, SafeStep, Parse, Atoi, Numeric;
  }

  /** A version with the same triple and this number for a qualifier. */
  lemma Below(b: string, n: nat) returns (c: string)
    requires !Numeric(b) && n <= MAX_INT
    ensures Compare(b, c) == 0 && SameTriple(b, c) && Atoi(Parse(c).qualifier) == Some(n)
  {
    AtoiDecimal(n);
    c := WithQualifier(b, Decimal(n));
    Requalified(b, Decimal(n));
    hide Parse, Atoi, Decimal, WithQualifier;
  }

  /** No import lowers a number hidden behind a version without one. */
  ghost predicate Steady(versions: seq<string>) {
    forall k | 0 <= k < |versions| - 1 :: SafeStep(versions[k], versions[k + 1])
  }

  /** Along a steady sequence of imports that pass the gate the whole version never decreases. */
  lemma {:induction false} GateKeepsOrder(versions: seq<string>, i: nat, j: nat)
    requires Imports(versions) && Steady(versions) && i <= j < |versions|
    ensures Compare(versions[i], versions[j]) <= 0
    decreases j
  {
    hide Parse, Atoi, Compare, SafeStep;
    if i == j {
      CompareAntisymmetric(versions[i], versions[i]);
    } else {
      GateKeepsOrder(versions, i, j - 1);
      assert Gate(versions[j - 1 + 1], Holds(versions[j - 1])) == Pass;
      CompareAntisymmetric(versions[j - 1], versions[j]);
      assert SafeStep(versions[j - 1], versions[j - 1 + 1]);
      StepKeeps(versions[i], versions[j - 1], versions[j]);
    }
  }

  /** Plain versions alone, or numeric qualifiers alone, are always steady. */
  lemma UniformIsSteady(versions: seq<string>)
    requires (forall v | v in versions :: !Numeric(v)) || (forall v | v in versions :: Numeric(v))
    ensures Steady(versions)
  {
    hide Numeric, SameTriple, Parse, Atoi;
    forall k | 0 <= k < |versions| - 1 ensures SafeStep(versions[k], versions[k + 1]) {
      assert versions[k] in versions && versions[k + 1] in versions;
    }
  }
}
