/**
 * The `String` extension: HTML-apostrophe unescaping, first-letter
 * capitalisation, and the substring test (`contains`) that the rest of the
 * app relies on. Characters are compared exactly; capitalisation is modelled
 * over ASCII.
 */
module StringExt {

  /** `sub` occurs in `s` at position `i`. */
  predicate OccursAt(s: string, sub: string, i: int)
  {
    0 <= i && i + |sub| <= |s| && s[i..i + |sub|] == sub
  }

  /** Swift's `s.contains(sub)`: `sub` occurs somewhere in `s`. */
  predicate Contains(s: string, sub: string)
  {
    exists i :: 0 <= i <= |s| && OccursAt(s, sub, i)
  }

  /** A needle whose first character does not occur in `s` cannot occur in `s`. */
  lemma NotContainsWithoutFirstChar(s: string, sub: string)
    requires |sub| > 0 && sub[0] !in s
    ensures !Contains(s, sub)
  {
    forall i | 0 <= i <= |s| && OccursAt(s, sub, i) ensures false {
    }
  }

  /** A needle occurring in a suffix of `s` occurs in `s`. */
  lemma ContainsSuffix(s: string, k: nat, sub: string)
    requires k <= |s| && Contains(s[k..], sub)
    ensures Contains(s, sub)
  {
    var i :| 0 <= i <= |s[k..]| && OccursAt(s[k..], sub, i);
    assert s[k + i..k + i + |sub|] == s[k..][i..i + |sub|];
    assert OccursAt(s, sub, k + i);
  }

  // ---------------------------------------------------------------------------
  // parseSpecialText

  /** The HTML entity the server sends for an apostrophe. */
  const Entity: string := "&#039;"

  /**
   * Foundation's `replacingOccurrences(of: Entity, with: "'")`: scans left to
   * right and replaces each non-overlapping occurrence.
   */
  function ReplaceEntities(s: string): (r: string)
    ensures |r| <= |s|
  {
    if |s| < |Entity| then s
    else if s[..|Entity|] == Entity then "'" + ReplaceEntities(s[|Entity|..])
    else [s[0]] + ReplaceEntities(s[1..])
  }

  /** `parseSpecialText()`. */
  function ParseSpecialText(s: string): string
  {
    ReplaceEntities(s)
  }

  /** No character of `w` is `&` or an apostrophe. */
  predicate Plain(w: string)
  {
    forall k :: 0 <= k < |w| ==> w[k] != '&' && w[k] != '\''
  }

  /**
   * A plain prefix of the output is copied from the input: replacement only
   * starts at `&` and only produces an apostrophe.
   */
  lemma {:induction false} PlainPrefixComesFromInput(t: string, w: string)
    requires Plain(w) && |w| <= |ReplaceEntities(t)|
    requires ReplaceEntities(t)[..|w|] == w
    ensures |w| <= |t| && t[..|w|] == w
  {
    if |w| > 0 {
      var r := ReplaceEntities(t);
      assert r[0] == w[0];
      if |t| < |Entity| {
      } else if t[..|Entity|] == Entity {
        assert false;
      } else {
        assert r == [t[0]] + ReplaceEntities(t[1..]);
        assert ReplaceEntities(t[1..])[..|w| - 1] == w[1..];
        PlainPrefixComesFromInput(t[1..], w[1..]);
        assert t[..|w|] == [t[0]] + t[1..][..|w| - 1];
      }
    }
  }

  /** The output of `parseSpecialText` contains no entity. */
  lemma {:induction false} ParseSpecialTextRemovesEntities(s: string)
    ensures !Contains(ParseSpecialText(s), Entity)
  {
    var r := ReplaceEntities(s);
    if |s| < |Entity| {
      assert r == s;
      assert forall i :: !OccursAt(r, Entity, i);
    } else {
      var tail, head;
      if s[..|Entity|] == Entity {
        tail := s[|Entity|..];
        head := '\'';
      } else {
        tail := s[1..];
        head := s[0];
      }
      assert r == [head] + ReplaceEntities(tail);
      ParseSpecialTextRemovesEntities(tail);
      forall i | OccursAt(r, Entity, i) ensures false {
        if i == 0 {
          assert r[0] == '&';
          assert head == s[0] && s[..|Entity|] != Entity;
          var w := Entity[1..];
          assert ReplaceEntities(tail)[..|w|] == r[1..|Entity|] == w;
          PlainPrefixComesFromInput(tail, w);
        } else {
          assert OccursAt(ReplaceEntities(tail), Entity, i - 1) by {
            assert r[i..i + |Entity|] == ReplaceEntities(tail)[i - 1..i - 1 + |Entity|];
          }
        }
      }
    }
  }

  /** A string without the entity is returned unchanged. */
  lemma {:induction false} ParseSpecialTextKeepsPlainText(s: string)
    requires !Contains(s, Entity)
    ensures ParseSpecialText(s) == s
  {
    if |s| >= |Entity| {
      assert !OccursAt(s, Entity, 0);
      if !Contains(s[1..], Entity) {
        ParseSpecialTextKeepsPlainText(s[1..]);
        assert s == [s[0]] + s[1..];
      } else {
        ContainsSuffix(s, 1, Entity);
      }
    }
  }

  /** `parseSpecialText` is idempotent. */
  lemma ParseSpecialTextIdempotent(s: string)
    ensures ParseSpecialText(ParseSpecialText(s)) == ParseSpecialText(s)
  {
    ParseSpecialTextRemovesEntities(s);
    ParseSpecialTextKeepsPlainText(ParseSpecialText(s));
  }

  /**
   * Each entity is replaced by exactly one apostrophe, at its place. The
   * prefix only has to be free of the entity: no proper prefix of "&#039;"
   * is also a suffix of it, so an occurrence cannot start inside `a`.
   */
  lemma ParseSpecialTextOfEntity(a: string, b: string)
    requires !Contains(a, Entity)
    ensures ParseSpecialText(a + Entity + b) == a + "'" + ParseSpecialText(b)
  {
    if |a| == 0 {
      assert a + Entity + b == Entity + b;
      assert (Entity + b)[|Entity|..] == b;
    } else {
      var s := a + Entity + b;
      assert s[0] == a[0];
      assert s[..|Entity|] != Entity by {
        if |a| >= |Entity| {
          assert s[..|Entity|] == a[..|Entity|];
          assert !OccursAt(a, Entity, 0);
        } else {
          assert s[|a|] == '&' && Entity[|a|] != '&';
        }
      }
      assert s[1..] == a[1..] + Entity + b;
      assert !Contains(a[1..], Entity) by {
        if Contains(a[1..], Entity) { ContainsSuffix(a, 1, Entity); }
      }
      ParseSpecialTextOfEntity(a[1..], b);
      assert a == [a[0]] + a[1..];
    }
  }

  /** "AT&T " has a stray `&` but no entity, so the apostrophe follows it unchanged. */
  lemma ParseSpecialTextAfterStrayAmpersand(b: string)
    ensures ParseSpecialText("AT&T " + Entity + b) == "AT&T '" + ParseSpecialText(b)
  {
    var a := "AT&T ";
    assert !Contains(a, Entity) by {
      forall i | 0 <= i <= |a| ensures !OccursAt(a, Entity, i) {
      }
    }
    ParseSpecialTextOfEntity(a, b);
    assert a + "'" == "AT&T '";
  }

  // ---------------------------------------------------------------------------
  // capitalizingFirstLetter

  /** ASCII upper-casing of one character; every other character is kept. */
  function ToUpper(c: char): (u: char)
    ensures 'a' <= c <= 'z' ==> 'A' <= u <= 'Z' && u as int == c as int - 32
    ensures !('a' <= c <= 'z') ==> u == c
  {
    if 'a' <= c <= 'z' then (c as int - 32) as char else c
  }

  /** ASCII lower-casing of one character; every other character is kept. */
  function ToLower(c: char): (l: char)
    ensures 'A' <= c <= 'Z' ==> 'a' <= l <= 'z' && l as int == c as int + 32
    ensures !('A' <= c <= 'Z') ==> l == c
  {
    if 'A' <= c <= 'Z' then (c as int + 32) as char else c
  }

  /** `prefix(1).capitalized + dropFirst()`. */
  function CapitalizingFirstLetter(s: string): (r: string)
    ensures |r| == |s|
    ensures s == [] ==> r == []
    ensures s != [] ==> r[0] == ToUpper(s[0]) && r[1..] == s[1..]
  {
    if s == [] then [] else [ToUpper(s[0])] + s[1..]
  }

  /** Capitalising twice is capitalising once. */
  lemma CapitalizingFirstLetterIdempotent(s: string)
    ensures CapitalizingFirstLetter(CapitalizingFirstLetter(s)) == CapitalizingFirstLetter(s)
  {
    if s != [] {
      var r := CapitalizingFirstLetter(s);
      assert r[1..] == s[1..];
      assert CapitalizingFirstLetter(r) == [ToUpper(r[0])] + r[1..];
    }
  }

  /** `mutating capitalizeFirstLetter()`: the string is replaced by its capitalised form. */
  method CapitalizeFirstLetter(self: string) returns (updated: string)
    ensures |updated| == |self|
    ensures updated == CapitalizingFirstLetter(self)
    ensures self != [] && 'a' <= self[0] <= 'z' ==> 'A' <= updated[0] <= 'Z'
  {
    updated := CapitalizingFirstLetter(self);
  }

  /**
   * Foundation's `capitalized` over ASCII: the first letter of every
   * space-separated word is upper-cased and every other letter lower-cased.
   */
  function Capitalized(s: string): (r: string)
    ensures |r| == |s|
    ensures forall i :: 0 <= i < |s| ==>
      r[i] == (if i == 0 || s[i - 1] == ' ' then ToUpper(s[i]) else ToLower(s[i]))
  {
    seq(|s|, i requires 0 <= i < |s| =>
      if i == 0 || s[i - 1] == ' ' then ToUpper(s[i]) else ToLower(s[i]))
  }

  /**
   * On a single lower-case word, `capitalized` and `capitalizingFirstLetter`
   * agree.
   */
  lemma CapitalizedOfLowercaseWord(s: string)
    requires forall i :: 0 <= i < |s| ==> 'a' <= s[i] <= 'z'
    ensures Capitalized(s) == CapitalizingFirstLetter(s)
  {
    if s != [] {
      var c, f := Capitalized(s), CapitalizingFirstLetter(s);
      forall i | 0 <= i < |s| ensures c[i] == f[i] {
        if i > 0 {
          assert s[i - 1] != ' ';
          assert f[i] == s[1..][i - 1];
        }
      }
    }
  }
}
