/** Small types shared by every part of the model. */
module Common {
  datatype Option<+T> = None | Some(value: T)

  /** Upper-cases the ASCII letters of a text; other characters stay. */
  function Upper(s: string): (r: string)
    ensures |r| == |s|
  {
    seq(|s|, i requires 0 <= i < |s| => UpperChar(s[i]))
  }

  function UpperChar(c: char): char {
    if 'a' <= c <= 'z' then (c as int - 32) as char else c
  }

  const SMALL := "abcdefghijklmnopqrstuvwxyz"
  const CAPITALS := "ABCDEFGHIJKLMNOPQRSTUVWXYZ"

  /** Each small letter becomes its capital, and every other character is kept. */
  lemma UpperPointwise(s: string, k: nat)
    requires k < |s|
    ensures (exists i :: 0 <= i < 26 && s[k] == SMALL[i] && Upper(s)[k] == CAPITALS[i])
         || (s[k] !in SMALL && Upper(s)[k] == s[k])
  {
    if 'a' <= s[k] <= 'z' {
      var i := s[k] as int - 'a' as int;
      SmallLetter(i);
      assert SMALL[i] == s[k];
    } else {
      NotSmall(s[k]);
    }
  }

  lemma SmallLetter(i: nat)
    requires i < 26
    ensures SMALL[i] as int == 'a' as int + i && CAPITALS[i] == UpperChar(SMALL[i])
  {
  }

  lemma NotSmall(c: char)
    requires !('a' <= c <= 'z')
    ensures c !in SMALL
  {
    forall i | 0 <= i < 26 ensures SMALL[i] != c {
      SmallLetter(i);
    }
  }

  /** Upper-casing twice is upper-casing once. */
  lemma UpperTwice(s: string)
    ensures Upper(Upper(s)) == Upper(s)
  {
  }

  /** Whether the members of a sequence are pairwise different. */
  ghost predicate Distinct<T>(s: seq<T>) {
    forall i, j :: 0 <= i < j < |s| ==> s[i] != s[j]
  }

  function Min(a: int, b: int): int {
    if a < b then a else b
  }

  lemma Pick<T>(s: set<T>) returns (x: T)
    requires s != {}
    ensures x in s
  {
    x :| x in s;
  }

  lemma Inhabited(s: set<int>)
    requires s != {}
    ensures exists x :: x in s
  {
    var x := Pick(s);
  }

  lemma HasMember<T(!new)>(s: seq<T>)
    ensures s == [] || exists x :: x in s
  {
    if s != [] { assert s[0] in s; }
  }
}
