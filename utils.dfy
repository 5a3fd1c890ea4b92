/** `capitaliseFirstLetter` from src/utils.ts, under an ASCII case mapping. */
module Utils {

  /** `c.toUpperCase()` for a single character: lower-case ASCII letters map
      to their capitals, every other character to itself. */
  function UpperCase(c: char): (u: char)
    ensures 'a' <= c <= 'z' ==> 'A' <= u <= 'Z' && u as int - c as int == 'A' as int - 'a' as int
    ensures !('a' <= c <= 'z') ==> u == c
  {
    if 'a' <= c <= 'z' then (c as int - 'a' as int + 'A' as int) as char else c
  }

  predicate IsLowerAscii(c: char) {
    'a' <= c <= 'z'
  }

  /** The string with its first character upper-cased and the rest kept. */
  function CapitaliseFirstLetter(s: string): (r: string)
    ensures |r| == |s|
    ensures s == [] ==> r == []
    ensures s != [] ==> r[0] == UpperCase(s[0]) && r[1..] == s[1..]
  {
    if s == [] then [] else [UpperCase(s[0])] + s[1..]
  }

  /** Capitalising an already capitalised string changes nothing. */
  lemma CapitaliseIdempotent(s: string)
    ensures CapitaliseFirstLetter(CapitaliseFirstLetter(s)) == CapitaliseFirstLetter(s)
  {
    if s != [] {
      var r := CapitaliseFirstLetter(s);
      assert !IsLowerAscii(r[0]);
      assert CapitaliseFirstLetter(r) == [UpperCase(r[0])] + r[1..];
    }
  }

  /** Only the first character can change, and only when it is a lower-case
      letter: the result equals the input exactly when it does not start with
      one. */
  lemma CapitaliseFixedPoints(s: string)
    ensures CapitaliseFirstLetter(s) == s <==> (s == [] || !IsLowerAscii(s[0]))
  {
    if s != [] && IsLowerAscii(s[0]) {
      assert CapitaliseFirstLetter(s)[0] != s[0];
    }
  }
}
