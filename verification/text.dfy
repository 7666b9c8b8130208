/**
 * The string operations the data manager applies to record fields:
 * lower-casing, trimming by a character class (dots, white space),
 * the record normalisation built from them, and taking the last
 * comma-separated field.
 */
module Text {

  predicate IsUpper(c: char) { 'A' <= c <= 'Z' }

  /** One character of strings.ToLower, restricted to the ASCII letters. */
  function LowerChar(c: char): (d: char)
    ensures !IsUpper(d)
    ensures d == '.' <==> c == '.'
    ensures !IsUpper(c) ==> d == c
  {
    if IsUpper(c) then (c as int + 32) as char else c
  }

  predicate IsLower(s: string) { forall i :: 0 <= i < |s| ==> !IsUpper(s[i]) }

  /** strings.ToLower: every upper-case letter becomes its lower-case form, nothing else changes. */
  function ToLower(s: string): (r: string)
    ensures |r| == |s|
  {
    if s == [] then [] else [LowerChar(s[0])] + ToLower(s[1..])
  }

  /**
   * ToLower leaves no upper-case letter, and each character is either kept
   * or is an upper-case letter moved to its lower-case form.
   */
  lemma {:induction false} ToLowerSpec(s: string)
    ensures IsLower(ToLower(s))
    ensures forall i :: 0 <= i < |s| ==>
      ToLower(s)[i] == s[i] || (IsUpper(s[i]) && ToLower(s)[i] as int == s[i] as int + 32)
  {
    if s != [] {
      ToLowerSpec(s[1..]);
      assert forall i :: 1 <= i < |s| ==> ToLower(s)[i] == ToLower(s[1..])[i - 1];
    }
  }

  /** A string with no upper-case letter is its own lower-case form. */
  lemma {:induction false} ToLowerOfLower(s: string)
    requires IsLower(s)
    ensures ToLower(s) == s
  {
    if s != [] {
      ToLowerOfLower(s[1..]);
    }
  }

  /** strings.TrimLeftFunc: drops the longest prefix made of characters that satisfy drop. */
  function TrimLeftFunc(s: string, drop: char -> bool): (r: string)
    ensures |r| <= |s|
    ensures r == [] || (!drop(r[0]) && r[|r| - 1] == s[|s| - 1])
  {
    if |s| > 0 && drop(s[0]) then TrimLeftFunc(s[1..], drop) else s
  }

  /** strings.TrimRightFunc: drops the longest suffix made of characters that satisfy drop. */
  function TrimRightFunc(s: string, drop: char -> bool): (r: string)
    ensures |r| <= |s|
    ensures r == [] || (!drop(r[|r| - 1]) && r[0] == s[0])
  {
    if |s| > 0 && drop(s[|s| - 1]) then TrimRightFunc(s[..|s| - 1], drop) else s
  }

  /**
   * TrimLeftFunc keeps a suffix of s and removes only characters that
   * satisfy drop, so the prefix it drops is the longest such one.
   */
  lemma {:induction false} TrimLeftSpec(s: string, drop: char -> bool)
    ensures TrimLeftFunc(s, drop) == s[|s| - |TrimLeftFunc(s, drop)|..]
    ensures forall i :: 0 <= i < |s| - |TrimLeftFunc(s, drop)| ==> drop(s[i])
  {
    if |s| > 0 && drop(s[0]) {
      TrimLeftSpec(s[1..], drop);
      var r := TrimLeftFunc(s[1..], drop);
      assert s[1..][|s| - 1 - |r|..] == s[|s| - |r|..];
    }
  }

  /** TrimRightFunc keeps a prefix of s and removes only characters that satisfy drop. */
  lemma {:induction false} TrimRightSpec(s: string, drop: char -> bool)
    ensures TrimRightFunc(s, drop) == s[..|TrimRightFunc(s, drop)|]
    ensures forall i :: |TrimRightFunc(s, drop)| <= i < |s| ==> drop(s[i])
  {
    if |s| > 0 && drop(s[|s| - 1]) {
      TrimRightSpec(s[..|s| - 1], drop);
      var r := TrimRightFunc(s[..|s| - 1], drop);
      assert s[..|s| - 1][..|r|] == s[..|r|];
    }
  }

  /** Neither end of s is a character that drop would remove. */
  predicate Trimmed(s: string, drop: char -> bool)
  {
    s == [] || (!drop(s[0]) && !drop(s[|s| - 1]))
  }

  /** Where the result of TrimFunc starts in s. */
  function TrimStart(s: string, drop: char -> bool): nat
  {
    |s| - |TrimLeftFunc(s, drop)|
  }

  /** strings.TrimFunc: both ends trimmed. */
  function TrimFunc(s: string, drop: char -> bool): (r: string)
    ensures |r| <= |s| && Trimmed(r, drop)
  {
    TrimRightFunc(TrimLeftFunc(s, drop), drop)
  }

  /**
   * The result of TrimFunc is a contiguous piece of s, and everything
   * outside it satisfies drop.
   */
  lemma TrimFuncSpec(s: string, drop: char -> bool)
    ensures var r, k := TrimFunc(s, drop), TrimStart(s, drop);
      k + |r| <= |s| && r == s[k..k + |r|]
      && (forall i :: 0 <= i < k ==> drop(s[i]))
      && (forall i :: k + |r| <= i < |s| ==> drop(s[i]))
  {
    var t := TrimLeftFunc(s, drop);
    TrimLeftSpec(s, drop);
    TrimRightSpec(t, drop);
    var r, k := TrimFunc(s, drop), TrimStart(s, drop);
    assert forall i :: k + |r| <= i < |s| ==> s[i] == t[i - k];
  }

  /** Trimming what is already trimmed changes nothing. */
  lemma TrimFuncOfTrimmed(s: string, drop: char -> bool)
    requires Trimmed(s, drop)
    ensures TrimFunc(s, drop) == s
  {
  }

  predicate IsDot(c: char) { c == '.' }

  /** The code points with the Unicode White_Space property. */
  const WhiteSpace: set<int> :=
    {0x09, 0x0A, 0x0B, 0x0C, 0x0D, 0x20, 0x85, 0xA0, 0x1680,
     0x2000, 0x2001, 0x2002, 0x2003, 0x2004, 0x2005, 0x2006, 0x2007, 0x2008, 0x2009, 0x200A,
     0x2028, 0x2029, 0x202F, 0x205F, 0x3000}

  /** Go's unicode.IsSpace. */
  predicate IsSpace(c: char) { c as int in WhiteSpace }

  /** strings.TrimSpace. */
  function TrimSpace(s: string): (r: string)
    ensures Trimmed(r, IsSpace)
  {
    TrimFunc(s, IsSpace)
  }

  /**
   * The normalisation applied to a record's name and data:
   * strings.Trim(strings.ToLower(s), ".").
   */
  function Normalize(s: string): (r: string)
    ensures Trimmed(r, IsDot)
  {
    TrimFunc(ToLower(s), IsDot)
  }

  /** A normalised string has no upper-case letter. */
  lemma NormalizeLower(s: string)
    ensures IsLower(Normalize(s))
  {
    var t := ToLower(s);
    ToLowerSpec(s);
    TrimFuncSpec(t, IsDot);
    var r, k := Normalize(s), TrimStart(t, IsDot);
    assert forall i :: 0 <= i < |r| ==> r[i] == t[k + i];
  }

  /** Normalising a normalised string leaves it unchanged. */
  lemma {:induction false} NormalizeIdempotent(s: string)
    ensures Normalize(Normalize(s)) == Normalize(s)
  {
    var r := Normalize(s);
    NormalizeLower(s);
    ToLowerOfLower(r);
    TrimFuncOfTrimmed(r, IsDot);
  }

  /**
   * The last element of strings.Split(s, ","): the text after the last
   * comma, or all of s when it holds no comma.
   */
  function LastField(s: string): string
  {
    if s == [] || s[|s| - 1] == ',' then []
    else LastField(s[..|s| - 1]) + [s[|s| - 1]]
  }

  /**
   * LastField is the last comma-separated field: a suffix of s that holds
   * no comma and, when it is not all of s, is preceded by a comma.
   */
  lemma {:induction false} LastFieldSpec(s: string)
    ensures |LastField(s)| <= |s| && LastField(s) == s[|s| - |LastField(s)|..]
    ensures ',' !in LastField(s)
    ensures |LastField(s)| < |s| ==> s[|s| - |LastField(s)| - 1] == ','
  {
    if s != [] && s[|s| - 1] != ',' {
      var init := s[..|s| - 1];
      LastFieldSpec(init);
      var r := LastField(init);
      var c := s[|s| - 1];
      assert LastField(s) == r + [c];
      assert s == init + [c];
      assert init[|init| - |r|..] + [c] == s[|s| - |r| - 1..];
      assert ',' !in r + [c];
      assert |r| < |init| ==> s[|s| - |r| - 2] == init[|init| - |r| - 1];
    }
  }
}
