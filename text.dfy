/** `String.prototype.toUpperCase`, restricted to the ASCII letters. */
module Text {

  predicate IsLowerAscii(c: char) {
    'a' <= c <= 'z'
  }

  function UpperChar(c: char): char {
    if IsLowerAscii(c) then (c as int - 32) as char else c
  }

  /** Every character mapped to upper case, keeping the length. */
  function ToUpperCase(s: string): (r: string)
    ensures |r| == |s|
    ensures forall i :: 0 <= i < |s| ==> r[i] == UpperChar(s[i])
    decreases |s|
  {
    if s == [] then [] else [UpperChar(s[0])] + ToUpperCase(s[1..])
  }

  /** No ASCII lower-case letter occurs in `s`. */
  predicate IsUpper(s: string) {
    forall i :: 0 <= i < |s| ==> !IsLowerAscii(s[i])
  }

  /** Upper-casing leaves no lower-case letter, leaves an upper-case text as it is, and is idempotent. */
  lemma ToUpperCaseNormalizes(s: string)
    ensures IsUpper(ToUpperCase(s))
    ensures IsUpper(s) ==> ToUpperCase(s) == s
    ensures ToUpperCase(ToUpperCase(s)) == ToUpperCase(s)
  {
  }
}
