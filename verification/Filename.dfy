/** File names that keep a path within the Windows length budget (eml_pack.rs). */
module Filename {
  import opened Common

  const PATH_BUDGET: nat := 250

  // ---- lengths ----

  /** UTF-16 code units of a character: two for those outside the basic plane. */
  function CharUnits(c: char): nat {
    if c as int >= 0x1_0000 then 2 else 1
  }

  function Units(s: string): nat {
    if s == "" then 0 else Units(s[..|s| - 1]) + CharUnits(s[|s| - 1])
  }

  /** UTF-8 bytes of a character. */
  function CharBytes(c: char): nat {
    if c as int < 0x80 then 1 else if c as int < 0x800 then 2 else if c as int < 0x1_0000 then 3 else 4
  }

  function Utf8Len(s: string): nat {
    if s == "" then 0 else Utf8Len(s[..|s| - 1]) + CharBytes(s[|s| - 1])
  }

  predicate Ascii(s: string) {
    forall k | 0 <= k < |s| :: s[k] as int < 0x80
  }

  predicate OneUnitEach(s: string) {
    forall k | 0 <= k < |s| :: CharUnits(s[k]) == 1
  }

  lemma {:induction false} UnitsConcat(a: string, b: string)
    ensures Units(a + b) == Units(a) + Units(b)
  {
    if b == "" {
      assert a + b == a;
    } else {
      UnitsConcat(a, b[..|b| - 1]);
      assert (a + b)[..|a + b| - 1] == a + b[..|b| - 1];
    }
  }

  lemma {:induction false} UnitsBounds(s: string)
    ensures |s| <= Units(s) <= Utf8Len(s)
    ensures OneUnitEach(s) ==> Units(s) == |s|
    ensures Ascii(s) ==> Utf8Len(s) == |s|
  {
    if s != "" {
      UnitsBounds(s[..|s| - 1]);
    }
  }

  // ---- names ----

  function Digit(n: nat): (c: char)
    requires n < 10
    ensures '0' <= c <= '9'
  {
    '0' + n as char
  }

  function Decimal(n: nat): string {
    if n < 10 then [Digit(n)] else Decimal(n / 10) + [Digit(n % 10)]
  }

  function Zeros(n: nat): string {
    seq(n, _ => '0')
  }

  /** Decimal digits, padded with zeros on the left to a width. */
  function Padded(n: nat, width: nat): string {
    (if |Decimal(n)| < width then Zeros(width - |Decimal(n)|) else "") + Decimal(n)
  }

  function Suffix(collision: Option<nat>): string {
    if collision.Some? then "-" + Decimal(collision.value) else ""
  }

  /** The counter and the id fragment, which are never cut. */
  function Stem(index: nat, id: string): string {
    Padded(index, 6) + "_" + id
  }

  function Name(index: nat, id: string, subject: string, collision: Option<nat>): string {
    Stem(index, id) + (if subject == "" then "" else "_" + subject) + Suffix(collision) + ".eml"
  }

  predicate Fits(absBase: nat, name: string) {
    absBase + 1 + Units(name) <= PATH_BUDGET
  }

  function Minus(a: nat, b: nat): nat {
    if a < b then 0 else a - b
  }

  function TruncateChars(s: string, max: nat): string {
    if |s| <= max then s else s[..max]
  }

  lemma NameUnits(index: nat, id: string, subject: string, collision: Option<nat>)
    ensures Units(Name(index, id, subject, collision))
         == Units(Name(index, id, "", collision)) + if subject == "" then 0 else 1 + Units(subject)
  {
    MiddleUnits(Stem(index, id), subject, Suffix(collision), ".eml");
    MiddleUnits(Stem(index, id), "", Suffix(collision), ".eml");
  }

  lemma MiddleUnits(stem: string, subject: string, suffix: string, extension: string)
    ensures Units(stem + (if subject == "" then "" else "_" + subject) + suffix + extension)
         == Units(stem) + Units(suffix) + Units(extension) + if subject == "" then 0 else 1 + Units(subject)
  {
    var middle := if subject == "" then "" else "_" + subject;
    JoinUnits(stem, middle, suffix, extension);
    SubjectUnits(subject, middle);
  }

  lemma JoinUnits(a: string, b: string, c: string, d: string)
    ensures Units(a + b + c + d) == Units(a) + Units(b) + Units(c) + Units(d)
  {
    UnitsConcat(a + b + c, d);
    UnitsConcat(a + b, c);
    UnitsConcat(a, b);
  }

  lemma SubjectUnits(subject: string, middle: string)
    requires middle == if subject == "" then "" else "_" + subject
    ensures Units(middle) == if subject == "" then 0 else 1 + Units(subject)
  {
    if subject != "" {
      UnitsConcat("_", subject);
      AsciiUnits("_");
    }
  }

  lemma {:induction false} DecimalPlain(n: nat)
    ensures Ascii(Decimal(n)) && |Decimal(n)| > 0
  {
    if n >= 10 {
      DecimalPlain(n / 10);
    }
  }

  lemma AsciiUnits(s: string)
    requires Ascii(s)
    ensures Units(s) == |s|
  {
    UnitsBounds(s);
  }

  lemma StemUnits(index: nat, id: string)
    ensures Units(Stem(index, id)) == |Padded(index, 6)| + 1 + Units(id)
  {
    DecimalPlain(index);
    AsciiUnits(Padded(index, 6) + "_");
    UnitsConcat(Padded(index, 6) + "_", id);
  }

  /** What the code counts for a name without subject; it counts the id fragment in bytes. */
  lemma PlainUnits(index: nat, id: string, collision: Option<nat>)
    ensures Units(Name(index, id, "", collision)) == |Padded(index, 6)| + 1 + Units(id) + Units(Suffix(collision)) + 4
  {
    StemUnits(index, id);
    AsciiUnits(".eml");
    MiddleUnits(Stem(index, id), "", Suffix(collision), ".eml");
  }

  ghost predicate Simple(id: string, safe: string) {
    Ascii(id) && OneUnitEach(safe)
  }

  /** No longer beginning of the subject fits. */
  ghost predicate Longest(index: nat, id: string, safe: string, absBase: nat, collision: Option<nat>, name: string) {
    forall j | 0 <= j <= |safe| && Fits(absBase, Name(index, id, safe[..j], collision)) ::
      |Name(index, id, safe[..j], collision)| <= |name|
  }

  /** How much of the subject the code's count leaves room for. */
  function Room(index: nat, id: string, absBase: nat, collision: Option<nat>): nat {
    Minus(Minus(Minus(PATH_BUDGET, absBase), 1), |Padded(index, 6)| + 1 + Utf8Len(id) + Units(Suffix(collision)) + 4 + 1)
  }

  /** Where every character counts once, the first cut already is the longest that fits, if any fits. */
  lemma FirstCut(index: nat, id: string, safe: string, absBase: nat, collision: Option<nat>, k: nat)
    requires Simple(id, safe) && k == Least(Room(index, id, absBase, collision), |safe|)
    ensures Longest(index, id, safe, absBase, collision, Name(index, id, safe[..k], collision))
    ensures Fits(absBase, Name(index, id, "", collision)) ==> Fits(absBase, Name(index, id, safe[..k], collision))
  {
    PlainUnits(index, id, collision);
    UnitsBounds(id);
    NameUnits(index, id, safe[..k], collision);
    UnitsBounds(safe[..k]);
    forall j | 0 <= j <= |safe| && Fits(absBase, Name(index, id, safe[..j], collision))
      ensures |Name(index, id, safe[..j], collision)| <= |Name(index, id, safe[..k], collision)|
    {
      NameUnits(index, id, safe[..j], collision);
      UnitsBounds(safe[..j]);
    }
  }

  function Least(a: nat, b: nat): nat {
    if a <= b then a else b
  }

  lemma SubjectCosts(index: nat, id: string, safe: string, absBase: nat, collision: Option<nat>, k: nat)
    requires k <= |safe| && Fits(absBase, Name(index, id, safe[..k], collision))
    ensures Fits(absBase, Name(index, id, "", collision))
  {
    NameUnits(index, id, safe[..k], collision);
  }

  /**
   A name exists exactly when the one without a subject fits. It then fits, keeps the counter and the id fragment, and
   has the beginning of the subject; where every character counts once, the longest beginning that fits.
   */
  method MakeEmlPackFilename(index: nat, id: string, safe: string, absBase: nat, collision: Option<nat>) returns (name: Option<string>)
    ensures name.Some? <==> Fits(absBase, Name(index, id, "", collision))
    ensures name.Some? ==> Fits(absBase, name.value)
    ensures name.Some? ==> exists k {:trigger safe[..k]} :: 0 <= k <= |safe| && name.value == Name(index, id, safe[..k], collision)
    ensures name.Some? && Simple(id, safe) ==> Longest(index, id, safe, absBase, collision, name.value)
  {
    var subjectBudget: nat := Room(index, id, absBase, collision);
    ghost var room := subjectBudget;
    assert safe[..0] == "";
    for i := 0 to 4
      invariant i == 0 ==> subjectBudget == room
      invariant i > 0 && Simple(id, safe) ==> !Fits(absBase, Name(index, id, "", collision))
    {
      var subject := if subjectBudget == 0 then "" else TruncateChars(safe, subjectBudget);
      ghost var k: nat := Least(subjectBudget, |safe|);
      assert subject == safe[..k];
      if i == 0 && Simple(id, safe) {
        FirstCut(index, id, safe, absBase, collision, k);
      }
      var candidate := Name(index, id, subject, collision);
      var fullLen := absBase + 1 + Units(candidate);
      if fullLen <= PATH_BUDGET {
        SubjectCosts(index, id, safe, absBase, collision, k);
        return Some(candidate);
      }
      var over := fullLen - PATH_BUDGET;
      if subjectBudget == 0 {
        return None;
      }
      subjectBudget := Minus(subjectBudget, over);
    }
    var plain := Name(index, id, safe[..0], collision);
    name := if Fits(absBase, plain) then Some(plain) else None;
  }
}
