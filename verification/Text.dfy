/** Letter case, for ASCII letters. */
module Text {
  function LowerChar(c: char): char {
    if 'A' <= c <= 'Z' then (c as int + 32) as char else c
  }

  function UpperChar(c: char): char {
    if 'a' <= c <= 'z' then (c as int - 32) as char else c
  }

  function ToLower(s: string): (r: string)
    ensures |r| == |s| && forall i :: 0 <= i < |s| ==> r[i] == LowerChar(s[i])
  {
    seq(|s|, i requires 0 <= i < |s| => LowerChar(s[i]))
  }

  function ToUpper(s: string): (r: string)
    ensures |r| == |s| && forall i :: 0 <= i < |s| ==> r[i] == UpperChar(s[i])
  {
    seq(|s|, i requires 0 <= i < |s| => UpperChar(s[i]))
  }

  const UPPER: string := "ABCDEFGHIJKLMNOPQRSTUVWXYZ"
  const LOWER: string := "abcdefghijklmnopqrstuvwxyz"

  /** The same letter in either case, or the same character. */
  predicate SameLetter(a: char, b: char) {
    a == b || exists k :: 0 <= k < 26 && ((a == UPPER[k] && b == LOWER[k]) || (a == LOWER[k] && b == UPPER[k]))
  }

  lemma {:induction false} Alphabets()
    ensures |UPPER| == |LOWER| == 26
    ensures forall k :: 0 <= k < 26 ==> UPPER[k] as int == 65 + k && LOWER[k] as int == 97 + k
  {}

  /** The two maps exchange the alphabets and leave every other character alone. */
  lemma {:induction false} CasePairs(c: char)
    ensures forall k :: 0 <= k < 26 ==> LowerChar(UPPER[k]) == LOWER[k] && UpperChar(LOWER[k]) == UPPER[k]
    ensures c !in UPPER ==> LowerChar(c) == c
    ensures c !in LOWER ==> UpperChar(c) == c
  {
    Alphabets();
    if 'A' <= c <= 'Z' { assert UPPER[c as int - 65] == c; }
    if 'a' <= c <= 'z' { assert LOWER[c as int - 97] == c; }
  }

  lemma {:induction false} LowerCharIff(a: char, b: char)
    ensures LowerChar(a) == LowerChar(b) <==> SameLetter(a, b)
  {
    Alphabets();
    if a != b && LowerChar(a) == LowerChar(b) {
      var k := LowerChar(a) as int - 97;
      assert LOWER[k] == LowerChar(a);
    }
  }

  /** Lower-cased texts are equal exactly when they agree letter by letter up to case. */
  lemma {:induction false} ToLowerIff(a: string, b: string)
    ensures ToLower(a) == ToLower(b) <==> |a| == |b| && forall i :: 0 <= i < |a| ==> SameLetter(a[i], b[i])
  {
    if |a| == |b| {
      forall i | 0 <= i < |a| ensures LowerChar(a[i]) == LowerChar(b[i]) <==> SameLetter(a[i], b[i]) {
        LowerCharIff(a[i], b[i]);
      }
      if ToLower(a) == ToLower(b) {
        forall i | 0 <= i < |a| ensures SameLetter(a[i], b[i]) {
          assert ToLower(a)[i] == ToLower(b)[i];
        }
      }
    }
  }
}
