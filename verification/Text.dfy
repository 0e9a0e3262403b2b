/**
  toLowerCase, trim and the white space class. Lower-casing covers ASCII and the two other characters whose
  lower case contains an ASCII letter (U+0130 and U+212A); letters of other scripts are left as they are.
 */
module Text {

  function LowerChar(c: char): (s: string)
    ensures |s| >= 1
  {
    if 'A' <= c <= 'Z' then [c + 32 as char]
    else if c == '\U{0130}' then "i\U{0307}"
    else if c == '\U{212A}' then "k"
    else [c]
  }

  function Lower(s: string): string {
    if s == [] then [] else LowerChar(s[0]) + Lower(s[1..])
  }

  type Casing = string -> string

  /**
    What toLowerCase does in every script, as far as trimming and comparing texts can tell: it leaves "" and " "
    alone, empties no text, and keeps white space and other characters apart at both ends of a text.
   */
  ghost predicate IsLowerCasing(lower: Casing) {
    && lower("") == "" && lower(" ") == " "
    && forall s: string :: s != "" ==>
         (lower(s) != "" && IsSpace(lower(s)[0]) == IsSpace(s[0])
          && IsSpace(lower(s)[|lower(s)| - 1]) == IsSpace(s[|s| - 1]))
  }

  predicate IsSpace(c: char) {
    || '\U{0009}' <= c <= '\U{000D}' || c == ' ' || c == '\U{00A0}' || c == '\U{1680}'
    || '\U{2000}' <= c <= '\U{200A}' || c == '\U{2028}' || c == '\U{2029}'
    || c == '\U{202F}' || c == '\U{205F}' || c == '\U{3000}' || c == '\U{FEFF}'
  }

  function TrimStart(s: string): string {
    if s != [] && IsSpace(s[0]) then TrimStart(s[1..]) else s
  }

  function TrimEnd(s: string): string {
    if s != [] && IsSpace(s[|s| - 1]) then TrimEnd(s[..|s| - 1]) else s
  }

  function Trim(s: string): string {
    TrimEnd(TrimStart(s))
  }

  predicate IsTrimmed(s: string) {
    s == [] || (!IsSpace(s[0]) && !IsSpace(s[|s| - 1]))
  }

  lemma {:induction false} TrimStartShorter(s: string)
    ensures |TrimStart(s)| <= |s| && (|TrimStart(s)| == |s| ==> s == [] || !IsSpace(s[0]))
  {
    if s != [] && IsSpace(s[0]) {
      TrimStartShorter(s[1..]);
    }
  }

  lemma {:induction false} TrimEndShorter(s: string)
    ensures |TrimEnd(s)| <= |s| && (|TrimEnd(s)| == |s| ==> s == [] || !IsSpace(s[|s| - 1]))
  {
    if s != [] && IsSpace(s[|s| - 1]) {
      TrimEndShorter(s[..|s| - 1]);
    }
  }

  /** trim leaves exactly the strings alone that neither start nor end with white space. */
  lemma {:induction false} TrimFixes(s: string)
    ensures Trim(s) == s <==> IsTrimmed(s)
  {
    TrimStartShorter(s);
    TrimEndShorter(TrimStart(s));
  }

  lemma {:induction false} LowerConcat(a: string, b: string)
    ensures Lower(a + b) == Lower(a) + Lower(b)
  {
    if a == [] {
      assert a + b == b;
    } else {
      assert (a + b)[1..] == a[1..] + b;
      LowerConcat(a[1..], b);
    }
  }

  lemma {:induction false} LowerOfOne(c: char)
    ensures Lower([c]) == LowerChar(c)
  {
    assert Lower([c]) == LowerChar(c) + Lower([]);
  }

  lemma LowerCharEnds(c: char)
    ensures IsSpace(LowerChar(c)[0]) == IsSpace(c) == IsSpace(LowerChar(c)[|LowerChar(c)| - 1])
  {
  }

  lemma {:induction false} LowerEnds(s: string)
    requires s != []
    ensures Lower(s) != []
    ensures IsSpace(Lower(s)[0]) == IsSpace(s[0])
    ensures IsSpace(Lower(s)[|Lower(s)| - 1]) == IsSpace(s[|s| - 1])
  {
    var front, c := s[..|s| - 1], s[|s| - 1];
    assert s == front + [c];
    LowerConcat(front, [c]);
    LowerOfOne(c);
    LowerCharEnds(s[0]);
    LowerCharEnds(c);
  }

  lemma {:induction false} LowerIsLowerCasing()
    ensures IsLowerCasing(Lower)
  {
    assert Lower(" ") == LowerChar(' ') + Lower("") == " ";
    forall s: string | s != ""
      ensures Lower(s) != "" && IsSpace(Lower(s)[0]) == IsSpace(s[0])
      ensures IsSpace(Lower(s)[|Lower(s)| - 1]) == IsSpace(s[|s| - 1])
    {
      LowerEnds(s);
    }
  }

  lemma {:induction false} TrimLowerFixes(lower: Casing, s: string)
    requires IsLowerCasing(lower) && IsTrimmed(s)
    ensures Trim(lower(s)) == lower(s)
  {
    TrimFixes(lower(s));
  }

  // ----- what these functions mean -----

  lemma WhiteSpaceIs(c: char)
    ensures IsSpace(c) <==>
              c as int in {9, 10, 11, 12, 13, 32, 160, 5760, 8192, 8193, 8194, 8195, 8196, 8197, 8198, 8199, 8200,
                           8201, 8202, 8232, 8233, 8239, 8287, 12288, 65279}
  {
  }

  ghost predicate AllSpace(s: string) {
    forall i :: 0 <= i < |s| ==> IsSpace(s[i])
  }

  lemma {:induction false} TrimStartMeans(s: string) returns (k: nat)
    ensures k <= |s| && TrimStart(s) == s[k..] && AllSpace(s[..k])
    ensures k < |s| ==> !IsSpace(s[k])
  {
    k := 0;
    if s != [] && IsSpace(s[0]) {
      var j := TrimStartMeans(s[1..]);
      k := j + 1;
      assert s[1..][..j] == s[1..k] && s[..k] == [s[0]] + s[1..k];
    }
  }

  lemma {:induction false} TrimEndMeans(s: string) returns (k: nat)
    ensures k <= |s| && TrimEnd(s) == s[..k] && AllSpace(s[k..])
    ensures k > 0 ==> !IsSpace(s[k - 1])
  {
    k := |s|;
    if s != [] && IsSpace(s[|s| - 1]) {
      k := TrimEndMeans(s[..|s| - 1]);
      assert s[..|s| - 1][..k] == s[..k] && s[k..] == s[..|s| - 1][k..] + [s[|s| - 1]];
    }
  }

  /** trim takes white space off both ends and nothing else, and leaves none there. */
  lemma {:induction false} TrimMeans(s: string)
    ensures exists i, j :: 0 <= i <= j <= |s| && Trim(s) == s[i..j] && AllSpace(s[..i]) && AllSpace(s[j..])
    ensures IsTrimmed(Trim(s))
  {
    var i := TrimStartMeans(s);
    var k := TrimEndMeans(s[i..]);
    assert s[i..][..k] == s[i..i + k] && s[i..][k..] == s[i + k..];
    assert Trim(s) == s[i..i + k] && AllSpace(s[..i]) && AllSpace(s[i + k..]);
  }

  /** The two characters whose lower case is not one character or not of the same script. */
  predicate IsOddUpper(c: char) {
    c as int == 304 || c as int == 8490
  }

  /** Outside those two, A..Z become a..z in order and every other character stays. */
  lemma {:induction false} LowerMeans(s: string)
    requires forall i :: 0 <= i < |s| ==> !IsOddUpper(s[i])
    ensures |Lower(s)| == |s|
    ensures forall i :: 0 <= i < |s| ==>
              Lower(s)[i] as int == if 65 <= s[i] as int <= 90 then s[i] as int + 32 else s[i] as int
  {
    if s != [] {
      LowerMeans(s[1..]);
      assert forall i :: 1 <= i < |s| ==> s[i] == s[1..][i - 1];
      assert Lower(s) == LowerChar(s[0]) + Lower(s[1..]);
    }
  }
}
