/**
 * generate-red-dot-keys.js: the build script that flattens the red-dot
 * configuration into the key table the game imports. The config is a
 * forest of named entries; generateKeys lists their full keys depth first
 * (a full key is the parent's full key, a '.', and the entry's own name),
 * and the generated file declares, per key, a constant (RedDotKeys), an
 * enum index (RedDotType) and a reverse-map entry (RedDotTypeMap), plus
 * isValidRedDotKey over the constants' values.
 */
module RedDotKeyGen {

  /**
   * One property of a `nodes`/`children` object: its name and the entries
   * of its `children` object, in the order `Object.entries` lists them
   * (integer-like names first in ascending order, then the others in
   * insertion order).
   */
  datatype KeyEntry = KeyEntry(name: string, children: seq<KeyEntry>)

  /** `prefix ? prefix + '.' + key : key` — an empty prefix counts as none. */
  function FullKey(prefix: string, name: string): string
  {
    if prefix == "" then name else prefix + "." + name
  }

  /** The keys one entry contributes: its own full key, then its children's keys under it. */
  function EntryKeys(e: KeyEntry, prefix: string): (r: seq<string>)
    decreases e, 1
    ensures |r| > 0 && r[0] == FullKey(prefix, e.name)
  {
    [FullKey(prefix, e.name)] + GenerateKeys(e.children, FullKey(prefix, e.name))
  }

  /** generateKeys: the entries' keys, one entry after another. */
  function GenerateKeys(entries: seq<KeyEntry>, prefix: string): seq<string>
    decreases entries, 0
  {
    if entries == [] then [] else EntryKeys(entries[0], prefix) + GenerateKeys(entries[1..], prefix)
  }

  /** The number of entries in a subtree and in a forest. */
  function EntryCount(e: KeyEntry): nat
    decreases e, 1
  {
    1 + ForestCount(e.children)
  }

  function ForestCount(entries: seq<KeyEntry>): nat
    decreases entries, 0
  {
    if entries == [] then 0 else EntryCount(entries[0]) + ForestCount(entries[1..])
  }

  /** generateKeys emits exactly one key per config entry. */
  lemma {:induction false} KeyCount(entries: seq<KeyEntry>, prefix: string)
    decreases entries, 0
    ensures |GenerateKeys(entries, prefix)| == ForestCount(entries)
  {
    if entries != [] {
      EntryKeyCount(entries[0], prefix);
      KeyCount(entries[1..], prefix);
    }
  }

  lemma {:induction false} EntryKeyCount(e: KeyEntry, prefix: string)
    decreases e, 1
    ensures |EntryKeys(e, prefix)| == EntryCount(e)
  {
    KeyCount(e.children, FullKey(prefix, e.name));
  }

  /** `k` lies strictly below `q`: it starts with `q` followed by a '.'. */
  predicate Below(k: string, q: string)
  {
    |q| < |k| && k[..|q|] == q && k[|q|] == '.'
  }

  lemma BelowTrans(k: string, r: string, q: string)
    requires Below(k, r) && Below(r, q)
    ensures Below(k, q)
  {
    assert k[..|q|] == k[..|r|][..|q|];
    assert k[|q|] == k[..|r|][|q|];
  }

  /** Under a non-empty prefix every generated key is a full key below that prefix. */
  lemma {:induction false} KeysBelow(entries: seq<KeyEntry>, prefix: string)
    requires prefix != ""
    decreases entries, 0
    ensures forall k :: k in GenerateKeys(entries, prefix) ==> Below(k, prefix)
  {
    if entries != [] {
      EntryBelow(entries[0], prefix);
      KeysBelow(entries[1..], prefix);
    }
  }

  lemma {:induction false} EntryBelow(e: KeyEntry, prefix: string)
    requires prefix != ""
    decreases e, 1
    ensures forall k :: k in EntryKeys(e, prefix) ==> Below(k, prefix)
  {
    var f := FullKey(prefix, e.name);
    assert f[..|prefix|] == prefix && f[|prefix|] == '.';
    KeysBelow(e.children, f);
    forall k | k in GenerateKeys(e.children, f) ensures Below(k, prefix) {
      BelowTrans(k, f, prefix);
    }
  }

  /**
   * Preorder: an entry's own key comes first in its block, and every later
   * key of the block is a descendant's, below it.
   */
  lemma EntryPrecedesSubtree(e: KeyEntry, prefix: string)
    requires FullKey(prefix, e.name) != ""
    ensures var ks := EntryKeys(e, prefix);
            && ks[0] == FullKey(prefix, e.name)
            && forall i :: 1 <= i < |ks| ==> Below(ks[i], ks[0])
  {
    var ks := EntryKeys(e, prefix);
    KeysBelow(e.children, FullKey(prefix, e.name));
    assert ks[1..] == GenerateKeys(e.children, FullKey(prefix, e.name));
    forall i | 1 <= i < |ks| ensures Below(ks[i], ks[0]) {
      assert ks[i] in ks[1..];
    }
  }

  /** Names the JSON config may use without two entries sharing a full key. */
  predicate EntryWellNamed(e: KeyEntry)
    decreases e, 1
  {
    e.name != "" && '.' !in e.name && ForestWellNamed(e.children)
  }

  /** Every entry well named, and sibling names distinct (they are the properties of one object). */
  predicate ForestWellNamed(entries: seq<KeyEntry>)
    decreases entries, 0
  {
    entries != [] ==>
      && EntryWellNamed(entries[0])
      && (forall j :: 1 <= j < |entries| ==> entries[j].name != entries[0].name)
      && ForestWellNamed(entries[1..])
  }

  predicate Distinct<T(==)>(s: seq<T>)
  {
    forall i, j :: 0 <= i < j < |s| ==> s[i] != s[j]
  }

  lemma DistinctConcat<T>(a: seq<T>, b: seq<T>)
    requires Distinct(a) && Distinct(b) && (forall x :: x in a ==> x !in b)
    ensures Distinct(a + b)
  {
    forall i, j | 0 <= i < j < |a + b| ensures (a + b)[i] != (a + b)[j] {
      if j >= |a| && i < |a| {
        assert (a + b)[i] in a && (a + b)[j] == b[j - |a|];
      }
    }
  }

  predicate AtOrBelow(k: string, q: string)
  {
    k == q || Below(k, q)
  }

  /** Every key of a forest is at or below the full key of one of its top entries. */
  lemma {:induction false} KeysUnderTop(entries: seq<KeyEntry>, prefix: string)
    requires ForestWellNamed(entries)
    decreases entries
    ensures forall k :: k in GenerateKeys(entries, prefix) ==>
              exists j :: 0 <= j < |entries| && AtOrBelow(k, FullKey(prefix, entries[j].name))
  {
    if entries != [] {
      var f := FullKey(prefix, entries[0].name);
      KeysBelow(entries[0].children, f);
      KeysUnderTop(entries[1..], prefix);
      forall k | k in GenerateKeys(entries, prefix)
        ensures exists j :: 0 <= j < |entries| && AtOrBelow(k, FullKey(prefix, entries[j].name))
      {
        if k in EntryKeys(entries[0], prefix) {
          assert AtOrBelow(k, FullKey(prefix, entries[0].name));
        } else {
          assert k in GenerateKeys(entries[1..], prefix);
          var j :| 0 <= j < |entries[1..]| && AtOrBelow(k, FullKey(prefix, entries[1..][j].name));
          assert AtOrBelow(k, FullKey(prefix, entries[j + 1].name));
        }
      }
    }
  }

  /** A key sits at or below the full keys of two dot-free names under one prefix only when the names agree. */
  lemma SameSegment(k: string, prefix: string, u: string, v: string)
    requires u != "" && v != "" && '.' !in u && '.' !in v && |u| <= |v|
    requires AtOrBelow(k, FullKey(prefix, u)) && AtOrBelow(k, FullKey(prefix, v))
    ensures u == v
  {
    var o := if prefix == "" then 0 else |prefix| + 1;
    var fu, fv := FullKey(prefix, u), FullKey(prefix, v);
    assert |fu| == o + |u| && |fv| == o + |v|;
    assert fu[o..] == u && fv[o..] == v;
    assert k[..|fu|] == fu && k[..|fv|] == fv;
    if |u| < |v| {
      assert false;
    }
    assert fu == fv;
  }

  /** A well-named config gives every entry its own key: generateKeys emits no key twice. */
  lemma {:induction false} KeysDistinct(entries: seq<KeyEntry>, prefix: string)
    requires ForestWellNamed(entries)
    decreases entries, 0
    ensures Distinct(GenerateKeys(entries, prefix))
  {
    if entries != [] {
      var e := entries[0];
      var a, b := EntryKeys(e, prefix), GenerateKeys(entries[1..], prefix);
      EntryKeysDistinct(e, prefix);
      KeysDistinct(entries[1..], prefix);
      KeysBelow(e.children, FullKey(prefix, e.name));
      KeysUnderTop(entries[1..], prefix);
      forall x | x in a ensures x !in b {
        assert AtOrBelow(x, FullKey(prefix, e.name));
        if x in b {
          var j :| 0 <= j < |entries[1..]| && AtOrBelow(x, FullKey(prefix, entries[1..][j].name));
          var w := entries[j + 1];
          assert EntryWellNamed(w) by { TopWellNamed(entries, j + 1); }
          if |e.name| <= |w.name| {
            SameSegment(x, prefix, e.name, w.name);
          } else {
            SameSegment(x, prefix, w.name, e.name);
          }
          assert false;
        }
      }
      DistinctConcat(a, b);
    }
  }

  lemma {:induction false} EntryKeysDistinct(e: KeyEntry, prefix: string)
    requires EntryWellNamed(e)
    decreases e, 1
    ensures Distinct(EntryKeys(e, prefix))
  {
    var f := FullKey(prefix, e.name);
    KeysDistinct(e.children, f);
    KeysBelow(e.children, f);
    DistinctConcat([f], GenerateKeys(e.children, f));
  }

  lemma {:induction false} TopWellNamed(entries: seq<KeyEntry>, j: nat)
    requires ForestWellNamed(entries) && j < |entries|
    decreases j
    ensures EntryWellNamed(entries[j])
  {
    if j > 0 {
      TopWellNamed(entries[1..], j - 1);
    }
  }

  /** String.prototype.toUpperCase on one character, for the ASCII letters. */
  function UpperChar(c: char): char
  {
    if 'a' <= c <= 'z' then (c as int - 32) as char else c
  }

  /** One character of a constant name: upper-cased, with '.' replaced by '_'. */
  function ConstChar(c: char): char
  {
    if c == '.' then '_' else UpperChar(c)
  }

  /** The constant name of a key: `key.toUpperCase().replace(/\./g, '_')`. */
  function ConstName(key: string): (c: string)
    ensures |c| == |key| && '.' !in c
    ensures forall i :: 0 <= i < |key| && key[i] == '.' ==> c[i] == '_'
  {
    seq(|key|, i requires 0 <= i < |key| => ConstChar(key[i]))
  }

  /** The `RedDotKeys` object: constant name to key, a later key taking over a name an earlier one had. */
  function KeysObject(keys: seq<string>): map<string, string>
  {
    if keys == [] then map[] else KeysObject(keys[..|keys| - 1])[ConstName(keys[|keys| - 1]) := keys[|keys| - 1]]
  }

  /** The `RedDotType` enum: constant name to list position, again with later keys taking over. */
  function EnumObject(keys: seq<string>): map<string, nat>
  {
    if keys == [] then map[] else EnumObject(keys[..|keys| - 1])[ConstName(keys[|keys| - 1]) := |keys| - 1]
  }

  /** Every key has its constant in both objects. */
  lemma {:induction false} ObjectsCover(keys: seq<string>)
    ensures forall i :: 0 <= i < |keys| ==> ConstName(keys[i]) in KeysObject(keys) && ConstName(keys[i]) in EnumObject(keys)
  {
    if keys != [] {
      var init := keys[..|keys| - 1];
      ObjectsCover(init);
      forall i | 0 <= i < |init| ensures ConstName(keys[i]) in KeysObject(keys) && ConstName(keys[i]) in EnumObject(keys) {
        assert init[i] == keys[i];
      }
    }
  }

  /** The values of `RedDotKeys` are generated keys. */
  lemma {:induction false} KeysObjectValues(keys: seq<string>)
    ensures forall c :: c in KeysObject(keys) ==> KeysObject(keys)[c] in keys
  {
    if keys != [] {
      var init := keys[..|keys| - 1];
      KeysObjectValues(init);
      forall c | c in KeysObject(init) ensures KeysObject(init)[c] in keys {
        var j :| 0 <= j < |init| && init[j] == KeysObject(init)[c];
        assert keys[j] == init[j];
      }
    }
  }

  /** The first `n` entries of `RedDotTypeMap`: `[RedDotType[constant]]: key`, in key order. */
  function TypeMapUpTo(keys: seq<string>, enum: map<string, nat>, n: nat): map<nat, string>
    requires n <= |keys| && forall i :: 0 <= i < |keys| ==> ConstName(keys[i]) in enum
  {
    if n == 0 then map[] else TypeMapUpTo(keys, enum, n - 1)[enum[ConstName(keys[n - 1])] := keys[n - 1]]
  }

  function TypeMap(keys: seq<string>): map<nat, string>
  {
    ObjectsCover(keys);
    TypeMapUpTo(keys, EnumObject(keys), |keys|)
  }

  /** isValidRedDotKey: `k` is among the values of `RedDotKeys`. */
  predicate IsValidKey(keys: seq<string>, k: string)
  {
    k in KeysObject(keys).Values
  }

  /** No two keys share a constant name. */
  predicate ConstNamesDistinct(keys: seq<string>)
  {
    forall i, j :: 0 <= i < j < |keys| ==> ConstName(keys[i]) != ConstName(keys[j])
  }

  lemma ConstNamesDistinctInit(keys: seq<string>)
    requires ConstNamesDistinct(keys) && keys != []
    ensures ConstNamesDistinct(keys[..|keys| - 1])
  {
    var init := keys[..|keys| - 1];
    forall i, j | 0 <= i < j < |init| ensures ConstName(init[i]) != ConstName(init[j]) {
      assert init[i] == keys[i] && init[j] == keys[j];
    }
  }

  /** With distinct constant names, each key's constant holds the key. */
  lemma {:induction false} KeysObjectAt(keys: seq<string>)
    requires ConstNamesDistinct(keys)
    ensures forall i :: 0 <= i < |keys| ==> ConstName(keys[i]) in KeysObject(keys) && KeysObject(keys)[ConstName(keys[i])] == keys[i]
  {
    if keys != [] {
      var init := keys[..|keys| - 1];
      ConstNamesDistinctInit(keys);
      KeysObjectAt(init);
      forall i | 0 <= i < |keys| - 1 ensures KeysObject(keys)[ConstName(keys[i])] == keys[i] {
        assert init[i] == keys[i];
      }
    }
  }

  /** With distinct constant names, each key's enum value is its list position. */
  lemma {:induction false} EnumObjectAt(keys: seq<string>)
    requires ConstNamesDistinct(keys)
    ensures forall i :: 0 <= i < |keys| ==> ConstName(keys[i]) in EnumObject(keys) && EnumObject(keys)[ConstName(keys[i])] == i
  {
    if keys != [] {
      var init := keys[..|keys| - 1];
      ConstNamesDistinctInit(keys);
      EnumObjectAt(init);
      forall i | 0 <= i < |keys| - 1 ensures EnumObject(keys)[ConstName(keys[i])] == i {
        assert init[i] == keys[i];
      }
    }
  }

  lemma {:induction false} TypeMapUpToIs(keys: seq<string>, enum: map<string, nat>, n: nat)
    requires n <= |keys| && forall i :: 0 <= i < |keys| ==> ConstName(keys[i]) in enum && enum[ConstName(keys[i])] == i
    ensures TypeMapUpTo(keys, enum, n) == (map i | 0 <= i < n :: keys[i])
  {
    if n > 0 {
      TypeMapUpToIs(keys, enum, n - 1);
    }
  }

  /**
   * The enum and the reverse map invert each other: when no two keys share
   * a constant name, RedDotType gives each key's constant its list position
   * and RedDotTypeMap maps exactly the positions back to their keys.
   */
  lemma IndexRoundTrip(keys: seq<string>)
    requires ConstNamesDistinct(keys)
    ensures forall i :: 0 <= i < |keys| ==> ConstName(keys[i]) in EnumObject(keys) && EnumObject(keys)[ConstName(keys[i])] == i
    ensures TypeMap(keys) == (map i | 0 <= i < |keys| :: keys[i])
    ensures forall i :: 0 <= i < |keys| ==>
              ConstName(keys[i]) in EnumObject(keys) && EnumObject(keys)[ConstName(keys[i])] in TypeMap(keys) &&
              TypeMap(keys)[EnumObject(keys)[ConstName(keys[i])]] == keys[i]
  {
    EnumObjectAt(keys);
    TypeMapUpToIs(keys, EnumObject(keys), |keys|);
  }

  /** isValidRedDotKey accepts only generated keys, and with distinct constant names it accepts all of them. */
  lemma ValidIffGenerated(keys: seq<string>, k: string)
    ensures IsValidKey(keys, k) ==> k in keys
    ensures ConstNamesDistinct(keys) ==> (IsValidKey(keys, k) <==> k in keys)
  {
    KeysObjectValues(keys);
    if ConstNamesDistinct(keys) && k in keys {
      KeysObjectAt(keys);
      var i :| 0 <= i < |keys| && keys[i] == k;
      assert KeysObject(keys)[ConstName(keys[i])] == k;
    }
  }

  /** Characters a name may hold for constant names to stay apart: no '.', no '_', no upper-case ASCII letter. */
  predicate PlainChar(c: char)
  {
    c != '.' && c != '_' && !('A' <= c <= 'Z')
  }

  lemma ConstCharInjective(c: char, d: char)
    requires PlainChar(c) || c == '.'
    requires PlainChar(d) || d == '.'
    requires ConstChar(c) == ConstChar(d)
    ensures c == d
  {
  }

  lemma ConstNameInjective(x: string, y: string)
    requires forall i :: 0 <= i < |x| ==> PlainChar(x[i]) || x[i] == '.'
    requires forall i :: 0 <= i < |y| ==> PlainChar(y[i]) || y[i] == '.'
    requires ConstName(x) == ConstName(y)
    ensures x == y
  {
    forall i | 0 <= i < |x| ensures x[i] == y[i] {
      assert ConstName(x)[i] == ConstName(y)[i];
      ConstCharInjective(x[i], y[i]);
    }
  }

  /** Keys made of plain characters and '.' have distinct constant names whenever they are distinct. */
  lemma PlainConstNames(keys: seq<string>)
    requires Distinct(keys)
    requires forall k, i :: k in keys && 0 <= i < |k| ==> PlainChar(k[i]) || k[i] == '.'
    ensures ConstNamesDistinct(keys)
  {
    forall a, b | 0 <= a < b < |keys| ensures ConstName(keys[a]) != ConstName(keys[b]) {
      if ConstName(keys[a]) == ConstName(keys[b]) {
        ConstNameInjective(keys[a], keys[b]);
      }
    }
  }

  /** Every key of an entry with plain names is made of plain characters and dots. */
  predicate PlainKey(k: string)
  {
    forall i :: 0 <= i < |k| ==> PlainChar(k[i]) || k[i] == '.'
  }

  predicate EntryPlain(e: KeyEntry)
    decreases e, 1
  {
    (forall i :: 0 <= i < |e.name| ==> PlainChar(e.name[i])) && ForestPlain(e.children)
  }

  predicate ForestPlain(entries: seq<KeyEntry>)
    decreases entries, 0
  {
    entries != [] ==> EntryPlain(entries[0]) && ForestPlain(entries[1..])
  }

  lemma {:induction false} PlainKeys(entries: seq<KeyEntry>, prefix: string)
    requires ForestPlain(entries) && PlainKey(prefix)
    decreases entries, 0
    ensures forall k :: k in GenerateKeys(entries, prefix) ==> PlainKey(k)
  {
    if entries != [] {
      var e := entries[0];
      var f := FullKey(prefix, e.name);
      assert PlainKey(f) by {
        if prefix != "" {
          forall i | 0 <= i < |f| ensures PlainChar(f[i]) || f[i] == '.' {
            if i > |prefix| {
              assert f[i] == e.name[i - |prefix| - 1];
            }
          }
        }
      }
      PlainKeys(e.children, f);
      PlainKeys(entries[1..], prefix);
    }
  }

  /**
   * A well-named config of plain names round-trips through the generated
   * tables: every key is valid, and the enum and reverse map invert each
   * other.
   */
  lemma GeneratedTablesRoundTrip(entries: seq<KeyEntry>)
    requires ForestWellNamed(entries) && ForestPlain(entries)
    ensures var keys := GenerateKeys(entries, "");
            && ConstNamesDistinct(keys)
            && TypeMap(keys) == (map i | 0 <= i < |keys| :: keys[i])
            && forall k :: IsValidKey(keys, k) <==> k in keys
  {
    var keys := GenerateKeys(entries, "");
    KeysDistinct(entries, "");
    PlainKeys(entries, "");
    PlainConstNames(keys);
    IndexRoundTrip(keys);
    forall k ensures IsValidKey(keys, k) <==> k in keys {
      ValidIffGenerated(keys, k);
    }
  }

  /**
   * Constant names can collide: "a_b" and "a.b" both become A_B. The config
   * {a_b: {}, a: {children: {b: {}}}} is well named, yet RedDotKeys keeps
   * only the later key, and isValidRedDotKey rejects "a_b".
   */
  lemma ConstNameCollision(entries: seq<KeyEntry>)
    requires entries == [KeyEntry("a_b", []), KeyEntry("a", [KeyEntry("b", [])])]
    ensures ForestWellNamed(entries)
    ensures GenerateKeys(entries, "") == ["a_b", "a", "a.b"]
    ensures !ConstNamesDistinct(GenerateKeys(entries, ""))
    ensures !IsValidKey(GenerateKeys(entries, ""), "a_b")
  {
    CollisionKeys(entries);
    var keys := GenerateKeys(entries, "");
    assert ConstName(keys[0]) == ConstName(keys[2]) by { CollidingNames(); }
    CollisionObject(keys);
  }

  lemma CollisionKeys(entries: seq<KeyEntry>)
    requires entries == [KeyEntry("a_b", []), KeyEntry("a", [KeyEntry("b", [])])]
    ensures ForestWellNamed(entries)
    ensures GenerateKeys(entries, "") == ["a_b", "a", "a.b"]
  {
    var rest := entries[1..];
    assert GenerateKeys([KeyEntry("b", [])], "a") == ["a.b"] by {
      assert FullKey("a", "b") == "a.b";
      assert [KeyEntry("b", [])][1..] == [];
    }
    assert rest[1..] == [];
    assert GenerateKeys(rest, "") == ["a", "a.b"];
    assert entries[1..] == rest;
    assert EntryWellNamed(entries[0]) && EntryWellNamed(rest[0]) by {
      assert ForestWellNamed([KeyEntry("b", [])]) by { assert [KeyEntry("b", [])][1..] == []; }
    }
  }

  lemma CollidingNames()
    ensures ConstName("a_b") == "A_B" == ConstName("a.b")
    ensures ConstName("a") == "A"
  {
  }

  lemma CollisionObject(keys: seq<string>)
    requires keys == ["a_b", "a", "a.b"]
    ensures KeysObject(keys) == map["A_B" := "a.b", "A" := "a"]
    ensures !IsValidKey(keys, "a_b")
  {
    CollidingNames();
    var t := keys[..2];
    assert t == ["a_b", "a"] && keys == t + ["a.b"];
    var u := t[..1];
    assert u == ["a_b"] && u[..0] == [];
    assert KeysObject(u) == map["A_B" := "a_b"];
    assert KeysObject(t) == map["A_B" := "a_b", "A" := "a"];
    forall c | c in KeysObject(keys) ensures KeysObject(keys)[c] != "a_b" {
    }
  }

  /** An entry whose two children are leaves contributes its key and then its children's, in order. */
  lemma TwoLeafEntry(n: string, a: string, b: string, prefix: string)
    ensures var f := FullKey(prefix, n);
            EntryKeys(KeyEntry(n, [KeyEntry(a, []), KeyEntry(b, [])]), prefix) == [f, FullKey(f, a), FullKey(f, b)]
  {
    var f := FullKey(prefix, n);
    assert EntryKeys(KeyEntry(a, []), f) == [FullKey(f, a)];
    assert EntryKeys(KeyEntry(b, []), f) == [FullKey(f, b)];
    Pair(KeyEntry(a, []), KeyEntry(b, []), f);
  }

  lemma Pair(x: KeyEntry, y: KeyEntry, prefix: string)
    ensures GenerateKeys([x, y], prefix) == EntryKeys(x, prefix) + EntryKeys(y, prefix)
  {
    assert [x, y][1..] == [y] && [y][1..] == [];
    assert GenerateKeys([y], prefix) == EntryKeys(y, prefix) + GenerateKeys([], prefix);
  }

  /** The configuration behind the checked-in key table: root { task { daily, achievement }, mail }, each with two leaves. */
  const SampleConfig: seq<KeyEntry> :=
    [KeyEntry("root", [
      KeyEntry("task", [
        KeyEntry("daily", [KeyEntry("daily1", []), KeyEntry("daily2", [])]),
        KeyEntry("achievement", [KeyEntry("achievement1", []), KeyEntry("achievement2", [])])]),
      KeyEntry("mail", [KeyEntry("mail1", []), KeyEntry("mail2", [])])])]

  /** The keys of the checked-in table, in the order it lists them. */
  const SampleKeys: seq<string> :=
    ["root", "root.task", "root.task.daily", "root.task.daily.daily1", "root.task.daily.daily2",
     "root.task.achievement", "root.task.achievement.achievement1", "root.task.achievement.achievement2",
     "root.mail", "root.mail.mail1", "root.mail.mail2"]

  /** generateKeys on that configuration yields exactly the checked-in keys. */
  lemma SampleGenerates()
    ensures GenerateKeys(SampleConfig, "") == SampleKeys
  {
    var root := SampleConfig[0];
    var task, mail := root.children[0], root.children[1];
    TaskKeys(task);
    MailKeys(mail);
    Pair(task, mail, "root");
    assert SampleConfig[1..] == [];
    assert EntryKeys(root, "") == ["root"] + EntryKeys(task, "root") + EntryKeys(mail, "root");
  }

  lemma MailKeys(mail: KeyEntry)
    requires mail == SampleConfig[0].children[1]
    ensures EntryKeys(mail, "root") == SampleKeys[8..]
  {
    TwoLeafEntry("mail", "mail1", "mail2", "root");
    assert FullKey("root", "mail") == "root.mail";
    assert FullKey("root.mail", "mail1") == "root.mail.mail1";
    assert FullKey("root.mail", "mail2") == "root.mail.mail2";
  }

  lemma TaskKeys(task: KeyEntry)
    requires task == SampleConfig[0].children[0]
    ensures EntryKeys(task, "root") == SampleKeys[1..8]
  {
    var daily, achievement := task.children[0], task.children[1];
    DailyKeys(daily);
    AchievementKeys(achievement);
    assert FullKey("root", "task") == "root.task";
    Pair(daily, achievement, "root.task");
  }

  lemma DailyKeys(daily: KeyEntry)
    requires daily == SampleConfig[0].children[0].children[0]
    ensures EntryKeys(daily, "root.task") == SampleKeys[2..5]
  {
    TwoLeafEntry("daily", "daily1", "daily2", "root.task");
    assert FullKey("root.task", "daily") == "root.task.daily";
    assert FullKey("root.task.daily", "daily1") == "root.task.daily.daily1";
    assert FullKey("root.task.daily", "daily2") == "root.task.daily.daily2";
  }

  lemma AchievementKeys(achievement: KeyEntry)
    requires achievement == SampleConfig[0].children[0].children[1]
    ensures EntryKeys(achievement, "root.task") == SampleKeys[5..8]
  {
    TwoLeafEntry("achievement", "achievement1", "achievement2", "root.task");
    assert FullKey("root.task", "achievement") == "root.task.achievement";
    assert FullKey("root.task.achievement", "achievement1") == "root.task.achievement.achievement1";
    assert FullKey("root.task.achievement", "achievement2") == "root.task.achievement.achievement2";
  }

  lemma ConstNameConcat(a: string, b: string)
    ensures ConstName(a + b) == ConstName(a) + ConstName(b)
  {
  }

  /** A checked-in constant name: ROOT_MAIL is "root.mail" upper-cased with '_' for '.'. */
  lemma SampleConstName()
    ensures ConstName("root.mail") == "ROOT_MAIL"
  {
    assert ConstName("root") == "ROOT";
    assert ConstName("mail") == "MAIL";
    assert ConstName(".") == "_";
    assert "root.mail" == "root" + "." + "mail";
    ConstNameConcat("root", ".");
    ConstNameConcat("root.", "mail");
  }
}
