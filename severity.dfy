/**
 * The `Severity` enum: five constants, declared in the order
 * CRITICAL, HIGH, MEDIUM, LOW, NOTE, each carrying a final display string
 * `level`; and the validity test the builder applies to user-supplied
 * severity strings (`EnumUtils.isValidEnum(Severity.class, s.toUpperCase())`).
 */
module Severities {
  import opened Common

  datatype Severity = Critical | High | Medium | Low | Note

  /** The constants in declaration order, as `Severity.values()` returns them. */
  const Values: seq<Severity> := [Critical, High, Medium, Low, Note]

  /** The constant's Java name, `name()`. */
  function Name(s: Severity): string {
    match s
    case Critical => "CRITICAL"
    case High => "HIGH"
    case Medium => "MEDIUM"
    case Low => "LOW"
    case Note => "NOTE"
  }

  /** The final `level` field, fixed by the enum constructor. */
  function Level(s: Severity): string {
    match s
    case Critical => "Critical"
    case High => "High"
    case Medium => "Medium"
    case Low => "Low"
    case Note => "Note"
  }

  /** The position of a constant in `values()`, `ordinal()`. */
  function Ordinal(s: Severity): (r: nat)
    ensures r < |Values| && Values[r] == s
    ensures forall i :: 0 <= i < |Values| && Values[i] == s ==> i == r
  {
    match s
    case Critical => 0
    case High => 1
    case Medium => 2
    case Low => 3
    case Note => 4
  }

  /** `Enum.valueOf`: the constant whose name is exactly `name`, if any. */
  function ValueOf(name: string): (r: Option<Severity>)
    ensures r.Some? ==> Name(r.value) == name
    ensures r.None? <==> forall s: Severity :: Name(s) != name
  {
    if name == "CRITICAL" then Some(Critical)
    else if name == "HIGH" then Some(High)
    else if name == "MEDIUM" then Some(Medium)
    else if name == "LOW" then Some(Low)
    else if name == "NOTE" then Some(Note)
    else None
  }

  /**
   * The upper-case form of one character under `String.toUpperCase`, for
   * every character whose form is made only of ASCII letters: the ASCII
   * lower-case letters; dotless i (U+0131) and long s (U+017F), which become
   * I and S; sharp s (U+00DF), which expands to SS; and the Latin ligatures
   * U+FB00 to U+FB06, which expand to FF, FI, FL, FFI, FFL, ST and ST. Every
   * other character is kept as it is: Java keeps the other ASCII characters
   * too, and maps or expands a non-ASCII one to a form that still holds a
   * non-ASCII character (U+0149 to U+02BC N, U+01F0 to J and U+030C, for
   * two), as the kept character does, so neither form can spell a
   * constant's name.
   */
  function UpperForm(c: char): (r: string)
    ensures 1 <= |r| <= 3
  {
    if 'a' <= c <= 'z' then [(c as int - 32) as char]
    else if c == '\U{0131}' then "I"
    else if c == '\U{017F}' then "S"
    else if c == '\U{00DF}' then "SS"
    else if c == '\U{FB00}' then "FF"
    else if c == '\U{FB01}' then "FI"
    else if c == '\U{FB02}' then "FL"
    else if c == '\U{FB03}' then "FFI"
    else if c == '\U{FB04}' then "FFL"
    else if c == '\U{FB05}' || c == '\U{FB06}' then "ST"
    else [c]
  }

  /**
   * `String.toUpperCase`: the upper-case forms of the characters, in order.
   * It is never shorter than its argument and at most three times as long,
   * and where no character expands it maps character for character.
   */
  function ToUpper(s: string): (r: string)
    ensures |s| <= |r| <= 3 * |s|
    ensures (forall i :: 0 <= i < |s| ==> |UpperForm(s[i])| == 1) ==>
      |r| == |s| && forall i :: 0 <= i < |s| ==> r[i] == UpperForm(s[i])[0]
  {
    if s == [] then [] else UpperForm(s[0]) + ToUpper(s[1..])
  }

  /** Upper-casing a concatenation upper-cases each part. */
  lemma {:induction false} ToUpperAppend(a: string, b: string)
    ensures ToUpper(a + b) == ToUpper(a) + ToUpper(b)
  {
    if a == [] {
      assert a + b == b;
    } else {
      assert (a + b)[1..] == a[1..] + b;
      ToUpperAppend(a[1..], b);
    }
  }

  /** Sharp s expands: "ß" upper-cases to the two letters "SS". */
  lemma SharpSExpands()
    ensures ToUpper("\U{00DF}") == "SS"
  {
  }

  /** The builder's test: the upper-cased string names a constant. */
  predicate IsValidSeverity(s: string) {
    ValueOf(ToUpper(s)).Some?
  }

  /**
   * A string of ASCII letters upper-cases letter by letter, to the string
   * whose every letter is the upper-case form of the one in its place.
   */
  lemma UpperLetters(s: string, t: string)
    requires |s| == |t|
    requires forall i :: 0 <= i < |s| ==> ('a' <= s[i] <= 'z' || 'A' <= s[i] <= 'Z')
    requires forall i :: 0 <= i < |s| ==> t[i] == UpperForm(s[i])[0]
    ensures ToUpper(s) == t
  {
    forall i | 0 <= i < |s|
      ensures |UpperForm(s[i])| == 1
    {
      LetterForm(s[i]);
    }
    assert |ToUpper(s)| == |t|;
    assert forall i :: 0 <= i < |s| ==> ToUpper(s)[i] == t[i];
  }

  /** An ASCII letter upper-cases to a single letter. */
  lemma LetterForm(c: char)
    requires 'a' <= c <= 'z' || 'A' <= c <= 'Z'
    ensures |UpperForm(c)| == 1
  {
  }

  // One lemma per constant keeps each literal computation small.
  lemma UpperCritical() ensures ToUpper("Critical") == "CRITICAL" { UpperLetters("Critical", "CRITICAL"); }
  lemma UpperHigh() ensures ToUpper("High") == "HIGH" { UpperLetters("High", "HIGH"); }
  lemma UpperMedium() ensures ToUpper("Medium") == "MEDIUM" { UpperLetters("Medium", "MEDIUM"); }
  lemma UpperLow() ensures ToUpper("Low") == "LOW" { UpperLetters("Low", "LOW"); }
  lemma UpperNote() ensures ToUpper("Note") == "NOTE" { UpperLetters("Note", "NOTE"); }

  /** Every constant's level, upper-cased, is its name. */
  lemma LevelUpperIsName(s: Severity)
    ensures ToUpper(Level(s)) == Name(s)
  {
    match s
    case Critical => UpperCritical();
    case High => UpperHigh();
    case Medium => UpperMedium();
    case Low => UpperLow();
    case Note => UpperNote();
  }

  /** So every level string passes the builder's validity test. */
  lemma LevelIsValid(s: Severity)
    ensures IsValidSeverity(Level(s))
    ensures ValueOf(ToUpper(Level(s))) == Some(s)
  {
    LevelUpperIsName(s);
  }

  /** The level strings are pairwise distinct. */
  lemma LevelsDistinct(a: Severity, b: Severity)
    requires a != b
    ensures Level(a) != Level(b)
  {
  }

  /** `values()` lists each of the five constants exactly once, in declaration order. */
  lemma ValuesEnumerateAll()
    ensures |Values| == 5
    ensures forall s: Severity :: s in Values
    ensures forall i, j :: 0 <= i < j < |Values| ==> Values[i] != Values[j]
  {
    forall s: Severity
      ensures s in Values
    {
      assert Values[Ordinal(s)] == s;
    }
  }

  /**
   * A severity setting: the string itself when it passes the validity test,
   * otherwise the level of `fallback`. Whatever is stored passes the test.
   */
  function SeverityOrDefault(s: string, fallback: Severity): (r: string)
    ensures IsValidSeverity(r)
    ensures r == s <==> IsValidSeverity(s)
    ensures !IsValidSeverity(s) ==> r == Level(fallback)
  {
    LevelIsValid(fallback);
    if IsValidSeverity(s) then s else Level(fallback)
  }
}
