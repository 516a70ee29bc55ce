/**
 The string operations used to derive a sensor's stable identifier from its
 display name: `str.replace` with one-character patterns and `str.lower`.
 The functions carry no contracts of their own, so that mentioning them stays
 cheap for the solver; what they compute is stated by the lemmas below them.
 */
module Text {

  /** `s` with every `from` replaced by `to` (`s.replace(from, to)` for one-character strings). */
  function ReplaceChar(s: string, from: char, to: char): string {
    seq(|s|, i requires 0 <= i < |s| => if s[i] == from then to else s[i])
  }

  /** `s` with every `c` removed (`s.replace(c, "")`). */
  function DropChar(s: string, c: char): string {
    if s == [] then [] else (if s[0] == c then [] else [s[0]]) + DropChar(s[1..], c)
  }

  predicate IsUpper(ch: char) {
    'A' <= ch <= 'Z'
  }

  /** ASCII lower-casing of one character. */
  function LowerChar(ch: char): (r: char)
    ensures !IsUpper(r)
    ensures IsUpper(ch) ==> r as int == ch as int + 32
    ensures !IsUpper(ch) ==> r == ch
  {
    if IsUpper(ch) then (ch as int + 32) as char else ch
  }

  /** `s.lower()` on ASCII letters. */
  function Lower(s: string): string {
    seq(|s|, i requires 0 <= i < |s| => LowerChar(s[i]))
  }

  predicate NoUpper(s: string) {
    forall i :: 0 <= i < |s| ==> !IsUpper(s[i])
  }

  /** Replacement keeps the length and rewrites exactly the `from` characters. */
  lemma ReplaceCharSpec(s: string, from: char, to: char)
    ensures |ReplaceChar(s, from, to)| == |s|
    ensures forall i :: 0 <= i < |s| ==>
      ReplaceChar(s, from, to)[i] == (if s[i] == from then to else s[i])
  {
  }

  /** Removal leaves no `c` behind and keeps every other character with its multiplicity. */
  lemma {:induction false} DropCharSpec(s: string, c: char)
    ensures c !in DropChar(s, c)
    ensures multiset(DropChar(s, c)) == multiset(s)[c := 0]
    ensures |DropChar(s, c)| == |s| - multiset(s)[c]
  {
    if s != [] {
      DropCharSpec(s[1..], c);
      assert s == [s[0]] + s[1..];
    }
  }

  /** Lower-casing keeps the length and lower-cases each character on its own. */
  lemma LowerSpec(s: string)
    ensures |Lower(s)| == |s|
    ensures forall i :: 0 <= i < |s| ==> Lower(s)[i] == LowerChar(s[i])
  {
  }

  /** Replacing a character that does not occur changes nothing. */
  lemma ReplaceCharAbsent(s: string, from: char, to: char)
    requires from !in s
    ensures ReplaceChar(s, from, to) == s
  {
    ReplaceCharSpec(s, from, to);
  }

  /** After replacing `from` by a different character, no `from` is left. */
  lemma ReplaceCharRemoves(s: string, from: char, to: char)
    requires from != to
    ensures from !in ReplaceChar(s, from, to)
  {
    ReplaceCharSpec(s, from, to);
  }

  /** Replacement works character by character, so it distributes over concatenation. */
  lemma ReplaceCharAppend(a: string, b: string, from: char, to: char)
    ensures ReplaceChar(a + b, from, to) == ReplaceChar(a, from, to) + ReplaceChar(b, from, to)
  {
  }

  /** Removing a character that does not occur changes nothing. */
  lemma {:induction false} DropCharAbsent(s: string, c: char)
    requires c !in s
    ensures DropChar(s, c) == s
  {
    if s != [] {
      assert c !in s[1..];
      DropCharAbsent(s[1..], c);
    }
  }

  /** Removal distributes over concatenation, so it keeps the order of what remains. */
  lemma {:induction false} DropCharAppend(a: string, b: string, c: char)
    ensures DropChar(a + b, c) == DropChar(a, c) + DropChar(b, c)
  {
    if a == [] {
      assert a + b == b;
    } else {
      assert (a + b)[1..] == a[1..] + b;
      DropCharAppend(a[1..], b, c);
    }
  }

  /** Lower-casing works character by character, so it distributes over concatenation. */
  lemma LowerAppend(a: string, b: string)
    ensures Lower(a + b) == Lower(a) + Lower(b)
  {
    LowerSpec(a + b);
    LowerSpec(a);
    LowerSpec(b);
  }

  /** Lower-casing yields no upper-case letters and is the identity exactly on such strings. */
  lemma LowerNormalises(s: string)
    ensures NoUpper(Lower(s))
    ensures NoUpper(s) <==> Lower(s) == s
  {
    LowerSpec(s);
  }

  /** Lower-casing introduces no character other than lower-case letters. */
  lemma LowerKeepsAbsent(s: string, c: char)
    requires c !in s && !('a' <= c <= 'z')
    ensures c !in Lower(s)
  {
    LowerSpec(s);
    forall i | 0 <= i < |s| ensures Lower(s)[i] != c {
      assert s[i] != c;
    }
  }

  /** Lower-casing twice is lower-casing once. */
  lemma LowerIdempotent(s: string)
    ensures Lower(Lower(s)) == Lower(s)
  {
    LowerNormalises(s);
    LowerNormalises(Lower(s));
  }
}
