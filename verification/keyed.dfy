/**
  Lists edited in place by key: environment variables by name, status conditions by type, owner
  references by kind. Every edit in the operator looks for the first entry with the key.
 */
module Keyed {
  import opened Selections

  function WithKey<T>(key: T -> string, k: string): T -> bool {
    t => key(t) == k
  }

  function Others<T>(key: T -> string, k: string): T -> bool {
    t => key(t) != k
  }

  predicate Has<T>(s: seq<T>, key: T -> string, k: string) {
    exists i | 0 <= i < |s| :: key(s[i]) == k
  }

  /** Position of the first entry with the key; the length if there is none. */
  function First<T>(s: seq<T>, key: T -> string, k: string): (i: nat)
    ensures i <= |s|
    ensures i < |s| ==> key(s[i]) == k
    ensures forall j | 0 <= j < i :: key(s[j]) != k
  {
    if s == [] || key(s[0]) == k then 0 else 1 + First(s[1..], key, k)
  }

  method FindFirst<T>(s: seq<T>, key: T -> string, k: string) returns (index: int)
    ensures -1 <= index < |s|
    ensures index == if Has(s, key, k) then First(s, key, k) else -1
  {
    for i := 0 to |s|
      invariant forall j | 0 <= j < i :: key(s[j]) != k
    {
      if key(s[i]) == k {
        return i;
      }
    }
    return -1;
  }

  /** Replaces the first entry with x's key, or appends x. */
  function Put<T>(s: seq<T>, key: T -> string, x: T): seq<T> {
    var i := First(s, key, key(x));
    if i < |s| then s[i := x] else s + [x]
  }

  /** Removes the first entry with the key, if there is one. */
  function Drop<T>(s: seq<T>, key: T -> string, k: string): seq<T> {
    var i := First(s, key, k);
    if i < |s| then s[..i] + s[i + 1..] else s
  }

  predicate Distinct<T>(s: seq<T>, key: T -> string) {
    forall i, j | 0 <= i < j < |s| :: key(s[i]) != key(s[j])
  }

  lemma PickAround<T>(s: seq<T>, i: nat, keep: T -> bool)
    requires i < |s|
    ensures Pick(s, keep) == Pick(s[..i], keep) + (if keep(s[i]) then [s[i]] else []) + Pick(s[i + 1..], keep)
  {
    assert s == s[..i + 1] + s[i + 1..];
    PickConcat(s[..i + 1], s[i + 1..], keep);
    PickStep(s, i, keep);
  }

  lemma {:induction false} PickNone<T>(s: seq<T>, keep: T -> bool)
    requires forall x | x in s :: !keep(x)
    ensures Pick(s, keep) == []
  {
    if s != [] {
      PickNone(s[..|s| - 1], keep);
    }
  }

  function Tail<T>(s: seq<T>): seq<T> {
    if s == [] then [] else s[1..]
  }

  /** Every other entry keeps its value and its place among the others. */
  lemma PutKeepsOthers<T>(s: seq<T>, key: T -> string, x: T)
    ensures Pick(Put(s, key, x), Others(key, key(x))) == Pick(s, Others(key, key(x)))
  {
    var keep, i := Others(key, key(x)), First(s, key, key(x));
    if i < |s| {
      PickAround(s, i, keep);
      PickAround(s[i := x], i, keep);
      assert s[i := x][..i] == s[..i] && s[i := x][i + 1..] == s[i + 1..];
    } else {
      assert (s + [x])[..|s|] == s;
    }
  }

  lemma DropKeepsOthers<T>(s: seq<T>, key: T -> string, k: string)
    ensures Pick(Drop(s, key, k), Others(key, k)) == Pick(s, Others(key, k))
  {
    var keep, i := Others(key, k), First(s, key, k);
    if i < |s| {
      PickAround(s, i, keep);
      PickConcat(s[..i], s[i + 1..], keep);
    }
  }

  /** What the entries with the key become: the first is replaced, or one is added at the end. */
  lemma PutAtKey<T>(s: seq<T>, key: T -> string, x: T)
    ensures var mine := WithKey(key, key(x));
            Pick(Put(s, key, x), mine) == [x] + Tail(Pick(s, mine)) && (Has(s, key, key(x)) <==> Pick(s, mine) != [])
  {
    var mine, i := WithKey(key, key(x)), First(s, key, key(x));
    PickNone(s[..i], mine);
    if i < |s| {
      PickAround(s, i, mine);
      PickAround(s[i := x], i, mine);
      assert s[i := x][..i] == s[..i] && s[i := x][i + 1..] == s[i + 1..];
    } else {
      assert s[..i] == s;
      assert (s + [x])[..|s|] == s;
    }
  }

  /** Only the first entry with the key goes. */
  lemma DropAtKey<T>(s: seq<T>, key: T -> string, k: string)
    ensures var mine := WithKey(key, k);
            Pick(Drop(s, key, k), mine) == Tail(Pick(s, mine)) && (Has(s, key, k) <==> Pick(s, mine) != [])
  {
    var mine, i := WithKey(key, k), First(s, key, k);
    PickNone(s[..i], mine);
    if i < |s| {
      PickAround(s, i, mine);
      PickConcat(s[..i], s[i + 1..], mine);
    } else {
      assert s[..i] == s;
    }
  }

  /** A removal leaves nothing behind exactly when there was at most one entry with the key. */
  lemma DropRemovesAllIff<T>(s: seq<T>, key: T -> string, k: string)
    ensures !Has(Drop(s, key, k), key, k) <==> |Pick(s, WithKey(key, k))| <= 1
  {
    DropAtKey(s, key, k);
    DropAtKey(Drop(s, key, k), key, k);
  }

  lemma PutKeepsDistinct<T>(s: seq<T>, key: T -> string, x: T)
    requires Distinct(s, key)
    ensures Distinct(Put(s, key, x), key)
  {
  }

  lemma DropKeepsDistinct<T>(s: seq<T>, key: T -> string, k: string)
    requires Distinct(s, key)
    ensures Distinct(Drop(s, key, k), key) && !Has(Drop(s, key, k), key, k)
  {
  }

  /** Putting a new entry in and taking it out again restores the list. */
  lemma DropUndoesPut<T>(s: seq<T>, key: T -> string, x: T)
    requires !Has(s, key, key(x))
    ensures Drop(Put(s, key, x), key, key(x)) == s
  {
    var t := Put(s, key, x);
    var i := First(t, key, key(x));
    assert t == s + [x];
    assert key(t[|s|]) == key(x);
  }

  // ---------------------------------------------------------------------------------------
  // Any mix of edits
  // ---------------------------------------------------------------------------------------

  datatype Edit<T> = Upsert(x: T) | Remove(k: string)

  function Target<T>(e: Edit<T>, key: T -> string): string {
    match e
    case Upsert(x) => key(x)
    case Remove(k) => k
  }

  function EditOnce<T>(s: seq<T>, key: T -> string, e: Edit<T>): seq<T> {
    match e
    case Upsert(x) => Put(s, key, x)
    case Remove(k) => Drop(s, key, k)
  }

  function EditAll<T>(s: seq<T>, key: T -> string, edits: seq<Edit<T>>): seq<T> {
    if edits == [] then s
    else EditOnce(EditAll(s, key, edits[..|edits| - 1]), key, edits[|edits| - 1])
  }

  /** What a key holds after the edits: the last edit of that key decides. */
  function Holds<T>(s: seq<T>, key: T -> string, edits: seq<Edit<T>>, k: string): seq<T> {
    if edits == [] then Pick(s, WithKey(key, k))
    else
      var e := edits[|edits| - 1];
      if Target(e, key) != k then Holds(s, key, edits[..|edits| - 1], k)
      else match e
        case Upsert(x) => [x]
        case Remove(_) => []
  }

  lemma {:induction false} EditsKeepDistinct<T>(s: seq<T>, key: T -> string, edits: seq<Edit<T>>)
    requires Distinct(s, key)
    ensures Distinct(EditAll(s, key, edits), key)
  {
    if edits != [] {
      var before, e := EditAll(s, key, edits[..|edits| - 1]), edits[|edits| - 1];
      EditsKeepDistinct(s, key, edits[..|edits| - 1]);
      match e
      case Upsert(x) => PutKeepsDistinct(before, key, x);
      case Remove(k) => DropKeepsDistinct(before, key, k);
    }
  }

  /** The elements a predicate picks, when it picks only entries with other keys. */
  lemma PickWithin<T>(s: seq<T>, t: seq<T>, wide: T -> bool, keep: T -> bool)
    requires Pick(s, wide) == Pick(t, wide)
    requires forall x :: keep(x) ==> wide(x)
    ensures Pick(s, keep) == Pick(t, keep)
  {
    PickTwice(s, wide, keep);
    PickTwice(t, wide, keep);
  }

  lemma {:induction false} PickTwice<T>(s: seq<T>, wide: T -> bool, keep: T -> bool)
    requires forall x :: keep(x) ==> wide(x)
    ensures Pick(Pick(s, wide), keep) == Pick(s, keep)
  {
    if s != [] {
      var before, last := s[..|s| - 1], s[|s| - 1];
      PickTwice(before, wide, keep);
      if wide(last) {
        assert (Pick(before, wide) + [last])[..|Pick(before, wide)|] == Pick(before, wide);
      }
    }
  }

  lemma OtherKeysStay<T>(s: seq<T>, key: T -> string, e: Edit<T>, keep: T -> bool)
    requires forall x :: keep(x) ==> key(x) != Target(e, key)
    ensures Pick(EditOnce(s, key, e), keep) == Pick(s, keep)
  {
    match e {
      case Upsert(x) => PutKeepsOthers(s, key, x);
      case Remove(k) => DropKeepsOthers(s, key, k);
    }
    PickWithin(EditOnce(s, key, e), s, Others(key, Target(e, key)), keep);
  }

  /** Over any run of edits, entries whose key no edit names keep value and order. */
  lemma {:induction false} UntouchedKeysStay<T>(s: seq<T>, key: T -> string, edits: seq<Edit<T>>, keep: T -> bool)
    requires forall x, e | e in edits :: keep(x) ==> key(x) != Target(e, key)
    ensures Pick(EditAll(s, key, edits), keep) == Pick(s, keep)
  {
    if edits != [] {
      UntouchedKeysStay(s, key, edits[..|edits| - 1], keep);
      OtherKeysStay(EditAll(s, key, edits[..|edits| - 1]), key, edits[|edits| - 1], keep);
    }
  }

  /** Over any run of edits, a key holds what the last edit of that key gave it. */
  lemma {:induction false} LastEditWins<T>(s: seq<T>, key: T -> string, edits: seq<Edit<T>>, k: string)
    requires Distinct(s, key)
    ensures Pick(EditAll(s, key, edits), WithKey(key, k)) == Holds(s, key, edits, k)
  {
    if edits != [] {
      var rest, e := edits[..|edits| - 1], edits[|edits| - 1];
      var before := EditAll(s, key, rest);
      EditsKeepDistinct(s, key, rest);
      if Target(e, key) != k {
        LastEditWins(s, key, rest, k);
        OtherKeysStay(before, key, e, WithKey(key, k));
      } else {
        DistinctPicksOne(before, key, k);
        match e
        case Upsert(x) => PutAtKey(before, key, x);
        case Remove(_) => DropAtKey(before, key, k);
      }
    }
  }

  lemma {:induction false} DistinctPicksOne<T>(s: seq<T>, key: T -> string, k: string)
    requires Distinct(s, key)
    ensures |Pick(s, WithKey(key, k))| <= 1
  {
    var i := First(s, key, k);
    if i < |s| {
      PickAround(s, i, WithKey(key, k));
      PickNone(s[..i], WithKey(key, k));
      PickNone(s[i + 1..], WithKey(key, k));
    } else {
      PickNone(s, WithKey(key, k));
    }
  }
}
