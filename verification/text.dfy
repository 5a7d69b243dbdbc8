/**
  Strings as the operator's Go code and its SQL see them: splitting at a separator
  (`strings.Split`, `split_part`), joining, substring search (`strings.Contains`), prefixes
  and the byte-wise order `sort.Slice` compares names with.
 */
module Text {

  function Split(s: string, sep: char): (parts: seq<string>)
    ensures |parts| >= 1
  {
    if s == "" then [""] else Extend(s[0], sep, Split(s[1..], sep))
  }

  /** The pieces of `[c] + s`, given those of `s`. */
  function Extend(c: char, sep: char, parts: seq<string>): (extended: seq<string>)
    requires |parts| >= 1
    ensures |extended| >= 1
  {
    if c == sep then [""] + parts else [[c] + parts[0]] + parts[1..]
  }

  lemma ExtendOfConcat(c: char, sep: char, p: seq<string>, q: seq<string>)
    requires |p| >= 1
    ensures Extend(c, sep, p + q) == Extend(c, sep, p) + q
  {
    assert (p + q)[1..] == p[1..] + q;
  }

  function Join(parts: seq<string>, sep: char): string
    requires |parts| >= 1
  {
    if |parts| == 1 then parts[0] else parts[0] + [sep] + Join(parts[1..], sep)
  }

  /** No piece contains the separator. */
  lemma {:induction false} SplitPiecesAreClean(s: string, sep: char)
    ensures forall i :: 0 <= i < |Split(s, sep)| ==> sep !in Split(s, sep)[i]
  {
    if s != "" {
      SplitPiecesAreClean(s[1..], sep);
    }
  }

  /** Splitting loses nothing. */
  lemma {:induction false} JoinOfSplit(s: string, sep: char)
    ensures Join(Split(s, sep), sep) == s
  {
    if s != "" {
      JoinOfSplit(s[1..], sep);
      var rest := Split(s[1..], sep);
      if s[0] == sep {
        assert ([""] + rest)[1..] == rest;
      } else {
        var parts := [[s[0]] + rest[0]] + rest[1..];
        assert parts[1..] == rest[1..];
      }
    }
  }

  lemma {:induction false} SplitOfClean(s: string, sep: char)
    requires sep !in s
    ensures Split(s, sep) == [s]
  {
    if s != "" {
      assert s == [s[0]] + s[1..];
      SplitOfClean(s[1..], sep);
    }
  }

  /** A separator between two strings separates their pieces. */
  lemma {:induction false} SplitOfConcat(a: string, b: string, sep: char)
    ensures Split(a + [sep] + b, sep) == Split(a, sep) + Split(b, sep)
  {
    var whole := a + [sep] + b;
    if a == "" {
      assert whole[0] == sep && whole[1..] == b;
    } else {
      SplitOfConcat(a[1..], b, sep);
      assert whole[0] == a[0] && whole[1..] == a[1..] + [sep] + b;
      ExtendOfConcat(a[0], sep, Split(a[1..], sep), Split(b, sep));
    }
  }

  /** Joining clean pieces and splitting again gives the pieces back, in order. */
  lemma {:induction false} SplitOfJoin(parts: seq<string>, sep: char)
    requires |parts| >= 1
    requires forall i :: 0 <= i < |parts| ==> sep !in parts[i]
    ensures Split(Join(parts, sep), sep) == parts
  {
    SplitOfClean(parts[0], sep);
    if |parts| > 1 {
      SplitOfJoin(parts[1..], sep);
      SplitOfConcat(parts[0], Join(parts[1..], sep), sep);
    }
  }

  predicate OccursAt(s: string, sub: string, i: nat) {
    i + |sub| <= |s| && s[i..i + |sub|] == sub
  }

  predicate Contains(s: string, sub: string) {
    exists i | 0 <= i <= |s| :: OccursAt(s, sub, i)
  }

  lemma ContainsAround(pre: string, sub: string, post: string)
    ensures Contains(pre + sub + post, sub)
  {
    assert OccursAt(pre + sub + post, sub, |pre|);
  }

  lemma ContainsTransitive(s: string, mid: string, sub: string)
    requires Contains(s, mid) && Contains(mid, sub)
    ensures Contains(s, sub)
  {
    var i :| 0 <= i <= |s| && OccursAt(s, mid, i);
    var j :| 0 <= j <= |mid| && OccursAt(mid, sub, j);
    forall k | 0 <= k < |sub| ensures s[i + j + k] == sub[k] {
      assert s[i + j + k] == s[i..i + |mid|][j + k] == mid[j..j + |sub|][k];
    }
    assert OccursAt(s, sub, i + j);
  }

  /** Every piece of a split string occurs in it. */
  lemma {:induction false} PieceOccurs(s: string, sep: char, i: nat)
    requires i < |Split(s, sep)|
    ensures Contains(s, Split(s, sep)[i])
  {
    if s == "" {
      assert OccursAt(s, "", 0);
    } else {
      var rest := Split(s[1..], sep);
      if i == 0 {
        FirstPieceIsPrefix(s, sep);
        assert OccursAt(s, Split(s, sep)[0], 0);
      } else {
        var j := if s[0] == sep then i - 1 else i;
        PieceOccurs(s[1..], sep, j);
        assert Split(s, sep)[i] == rest[j];
        assert OccursAt(s, s[1..], 1);
        ContainsTransitive(s, s[1..], rest[j]);
      }
    }
  }

  lemma {:induction false} FirstPieceIsPrefix(s: string, sep: char)
    ensures Split(s, sep)[0] <= s
  {
    if s != "" && s[0] != sep {
      FirstPieceIsPrefix(s[1..], sep);
    }
  }

  /** Go's order on strings: lexicographic, a proper prefix first. */
  predicate Less(a: string, b: string) {
    if b == "" then false
    else if a == "" then true
    else if a[0] != b[0] then a[0] < b[0]
    else Less(a[1..], b[1..])
  }

  lemma {:induction false} LessIsStrictTotal(a: string, b: string)
    ensures a == b ==> !Less(a, b)
    ensures !(Less(a, b) && Less(b, a))
    ensures a != b ==> Less(a, b) || Less(b, a)
  {
    if a != "" && b != "" && a[0] == b[0] {
      LessIsStrictTotal(a[1..], b[1..]);
      assert a == [a[0]] + a[1..] && b == [b[0]] + b[1..];
    }
  }

  lemma {:induction false} LessIsTransitive(a: string, b: string, c: string)
    requires Less(a, b) && Less(b, c)
    ensures Less(a, c)
  {
    if a != "" && a[0] == b[0] && b[0] == c[0] {
      LessIsTransitive(a[1..], b[1..], c[1..]);
    }
  }
}
