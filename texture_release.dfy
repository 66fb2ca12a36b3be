/**
  `releaseTextures`: when a scene shuts down, the textures it loaded are removed
  from the texture manager, except Phaser's four built-in textures. Which keys
  go is decided by an optional prefix: none (or an empty one) selects every key,
  a string selects the keys starting with it, an array the keys starting with
  any of its elements.
*/
module TextureRelease {
  import opened Text
  import opened Seqs

  /** Phaser's own textures, which are never released. */
  const SkipTextures: seq<string> := ["__DEFAULT", "__MISSING", "__NORMAL", "__WHITE"]

  /** The optional `prefix` argument: absent, a string, or an array of strings. */
  datatype Prefix = NoPrefix | Single(prefix: string) | Several(prefixes: seq<string>)

  /** Whether the prefix argument is truthy: an empty string is not, an array always is. */
  predicate PrefixGiven(prefix: Prefix) {
    match prefix
    case NoPrefix => false
    case Single(p) => p != []
    case Several(_) => true
  }

  /** The key passes the prefix test. */
  predicate MatchesPrefix(key: string, prefix: Prefix) {
    match prefix
    case NoPrefix => true
    case Single(p) => StartsWith(key, p)
    case Several(ps) => exists i :: 0 <= i < |ps| && StartsWith(key, ps[i])
  }

  /** The key survives both `continue` guards and is removed. */
  predicate Selected(key: string, prefix: Prefix) {
    key !in SkipTextures && (!PrefixGiven(prefix) || MatchesPrefix(key, prefix))
  }

  /** The keys that are removed, in order. */
  function Released(keys: seq<string>, prefix: Prefix): seq<string> {
    Filter(keys, k => Selected(k, prefix))
  }

  /** The keys that stay, in order. */
  function Kept(keys: seq<string>, prefix: Prefix): seq<string> {
    Filter(keys, k => !Selected(k, prefix))
  }

  /** `keys` without `key`. */
  function WithoutKey(keys: seq<string>, key: string): seq<string> {
    Filter(keys, k => k != key)
  }

  /** The key list of Phaser's texture manager (`Object.keys(list)`), in insertion order. */
  class TextureManager {
    var keys: seq<string>

    ghost predicate Valid()
      reads this
    {
      NoDup(keys)
    }

    constructor (keys: seq<string>)
      requires NoDup(keys)
      ensures Valid() && this.keys == keys
    {
      this.keys := keys;
    }

    /** `remove`: the texture's key leaves the list; the others keep their order. */
    method Remove(key: string)
      modifies this
      ensures keys == WithoutKey(old(keys), key)
    {
      keys := WithoutKey(keys, key);
    }
  }

  /** The key list after the loop has looked at the first `i` keys of `textures`. */
  function Midway(textures: seq<string>, i: nat, prefix: Prefix): seq<string>
    requires i <= |textures|
  {
    Kept(textures[..i], prefix) + textures[i..]
  }

  /** Moving past one more key: it is kept or released. */
  lemma StepKeys(textures: seq<string>, i: nat, prefix: Prefix)
    requires i < |textures|
    ensures Kept(textures[..i + 1], prefix)
            == Kept(textures[..i], prefix) + (if Selected(textures[i], prefix) then [] else [textures[i]])
    ensures Released(textures[..i + 1], prefix)
            == Released(textures[..i], prefix) + (if Selected(textures[i], prefix) then [textures[i]] else [])
  {
    assert textures[..i + 1] == textures[..i] + [textures[i]];
    FilterAppend(textures[..i], [textures[i]], k => Selected(k, prefix));
    FilterAppend(textures[..i], [textures[i]], k => !Selected(k, prefix));
    FilterSingleton(textures[i], k => Selected(k, prefix));
    FilterSingleton(textures[i], k => !Selected(k, prefix));
  }

  /** In a list without duplicates, a key occurs neither before nor after its own place. */
  lemma NoDupAt(textures: seq<string>, i: nat)
    requires NoDup(textures) && i < |textures|
    ensures textures[i] !in textures[..i] && textures[i] !in textures[i + 1..]
  {
    assert forall j :: 0 <= j < i ==> textures[..i][j] != textures[i];
    var after := textures[i + 1..];
    forall j | 0 <= j < |after| ensures after[j] != textures[i] {
      assert after[j] == textures[i + 1 + j];
    }
  }

  lemma {:induction false} WithoutAbsentKey(s: seq<string>, x: string)
    requires x !in s
    ensures WithoutKey(s, x) == s
  {
    if s != [] {
      WithoutAbsentKey(s[1..], x);
      assert s == [s[0]] + s[1..];
    }
  }

  lemma WithoutKeyMiddle(before: seq<string>, x: string, after: seq<string>)
    requires x !in before && x !in after
    ensures WithoutKey(before + ([x] + after), x) == before + after
  {
    FilterAppend(before, [x] + after, k => k != x);
    WithoutAbsentKey(before, x);
    assert ([x] + after)[1..] == after;
    WithoutAbsentKey(after, x);
  }

  /** One more key looked at: it was removed from the list exactly when it is
      selected, and then counted. */
  lemma Advance(textures: seq<string>, i: nat, prefix: Prefix)
    requires NoDup(textures) && i < |textures|
    ensures Midway(textures, i + 1, prefix)
            == if Selected(textures[i], prefix) then WithoutKey(Midway(textures, i, prefix), textures[i])
               else Midway(textures, i, prefix)
    ensures |Released(textures[..i + 1], prefix)|
            == |Released(textures[..i], prefix)| + (if Selected(textures[i], prefix) then 1 else 0)
  {
    StepKeys(textures, i, prefix);
    if Selected(textures[i], prefix) {
      AdvanceSelected(textures, i, prefix);
    } else {
      AdvanceSkipped(textures, i, prefix);
    }
  }

  lemma AdvanceSkipped(textures: seq<string>, i: nat, prefix: Prefix)
    requires i < |textures|
    requires Kept(textures[..i + 1], prefix) == Kept(textures[..i], prefix) + [textures[i]]
    ensures Midway(textures, i + 1, prefix) == Midway(textures, i, prefix)
  {
    assert textures[i..] == [textures[i]] + textures[i + 1..];
  }

  lemma AdvanceSelected(textures: seq<string>, i: nat, prefix: Prefix)
    requires NoDup(textures) && i < |textures|
    requires Kept(textures[..i + 1], prefix) == Kept(textures[..i], prefix)
    ensures Midway(textures, i + 1, prefix) == WithoutKey(Midway(textures, i, prefix), textures[i])
  {
    var x := textures[i];
    var before := Kept(textures[..i], prefix);
    var after := textures[i + 1..];
    assert textures[i..] == [x] + after;
    NoDupAt(textures, i);
    assert x !in before by {
      FilterMembers(textures[..i], k => !Selected(k, prefix));
    }
    WithoutKeyMiddle(before, x, after);
  }

  /** One pass of the loop body: a built-in texture, or one the prefix does not
      select, is skipped; otherwise it is removed. */
  method ReleaseOne(manager: TextureManager, texture: string, prefix: Prefix) returns (removed: bool)
    modifies manager
    ensures removed == Selected(texture, prefix)
    ensures manager.keys == if removed then WithoutKey(old(manager.keys), texture) else old(manager.keys)
  {
    if texture in SkipTextures {
      return false;
    }
    if PrefixGiven(prefix) {
      if !MatchesPrefix(texture, prefix) {
        return false;
      }
    }
    manager.Remove(texture);
    removed := true;
  }

  /** `releaseTextures`: every selected key is removed, in order, and counted; every
      other key stays where it was. */
  method ReleaseTextures(manager: TextureManager, prefix: Prefix) returns (count: nat)
    requires manager.Valid()
    modifies manager
    ensures manager.keys == Kept(old(manager.keys), prefix)
    ensures count == |Released(old(manager.keys), prefix)|
  {
    var textures := manager.keys;
    count := 0;
    assert textures[..0] == [] && textures[0..] == textures;
    for i := 0 to |textures|
      invariant manager.keys == Midway(textures, i, prefix)
      invariant count == |Released(textures[..i], prefix)|
    {
      Advance(textures, i, prefix);
      var removed := ReleaseOne(manager, textures[i], prefix);
      if removed {
        count := count + 1;
      }
    }
    assert textures[..|textures|] == textures;
    assert textures[|textures|..] == [];
  }

  // ------------------------------------------------------------ properties

  /** Released and kept keys split the list: the count plus what stays is what was there. */
  lemma ReleasedPlusKept(keys: seq<string>, prefix: Prefix)
    ensures |Released(keys, prefix)| + |Kept(keys, prefix)| == |keys|
    ensures multiset(Released(keys, prefix)) + multiset(Kept(keys, prefix)) == multiset(keys)
  {
    FilterPartition(keys, k => Selected(k, prefix), k => !Selected(k, prefix));
  }

  /** A key stays exactly when it was there and is not selected; the built-in
      textures always stay. */
  lemma KeptIff(keys: seq<string>, prefix: Prefix, key: string)
    ensures key in Kept(keys, prefix) <==> key in keys && !Selected(key, prefix)
    ensures key in keys && key in SkipTextures ==> key in Kept(keys, prefix)
  {
    FilterMembers(keys, k => !Selected(k, prefix));
  }

  /** Without a prefix (or with an empty one) everything but the built-in textures goes. */
  lemma NoPrefixReleasesAllButBuiltIns(keys: seq<string>, prefix: Prefix)
    requires !PrefixGiven(prefix)
    ensures Kept(keys, prefix) == Filter(keys, k => k in SkipTextures)
  {
    FilterMembers(keys, k => !Selected(k, prefix));
    assert forall k :: !Selected(k, prefix) <==> k in SkipTextures;
    FilterSame(keys, k => !Selected(k, prefix), k => k in SkipTextures);
  }

  /** With a string prefix, a key goes exactly when it starts with the prefix and is
      not built in. */
  lemma SinglePrefixReleases(keys: seq<string>, p: string, key: string)
    requires p != []
    ensures key in Released(keys, Single(p)) <==> key in keys && key !in SkipTextures && StartsWith(key, p)
  {
    FilterMembers(keys, k => Selected(k, Single(p)));
  }

  /** With an array of prefixes, a key goes exactly when it starts with one of them and
      is not built in; an empty array releases nothing. */
  lemma SeveralPrefixesRelease(keys: seq<string>, ps: seq<string>, key: string)
    ensures key in Released(keys, Several(ps)) <==>
              key in keys && key !in SkipTextures && exists i :: 0 <= i < |ps| && StartsWith(key, ps[i])
    ensures ps == [] ==> Released(keys, Several(ps)) == []
  {
    FilterMembers(keys, k => Selected(k, Several(ps)));
    if ps == [] {
      FilterNone(keys, k => Selected(k, Several(ps)));
    }
  }

  /** Filters with the same test give the same result. */
  lemma {:induction false} FilterSame(s: seq<string>, p: string -> bool, q: string -> bool)
    requires forall x :: p(x) == q(x)
    ensures Filter(s, p) == Filter(s, q)
  {
    if s != [] {
      FilterSame(s[1..], p, q);
    }
  }
}
