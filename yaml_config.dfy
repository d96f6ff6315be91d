/**
 * The part of Bukkit's YamlConfiguration the inventory codecs use. A
 * section is a list of (key, value) entries in insertion order (a memory
 * section is backed by a LinkedHashMap, so each key occurs once and keeps
 * its place when overwritten). A dotted path such as `Survival.Armor.3`
 * is given as the sequence of its keys.
 */
module YamlConfig {
  import opened Common

  /** A configuration value: an item stack, a nested section, or anything else (a number, a string, a list). */
  datatype Value = Item(stack: ItemStack) | Section(entries: seq<Entry>) | Other
  datatype Entry = Entry(key: string, value: Value)

  type Path = seq<string>

  /** The value stored under a key of this section, if any. */
  function Lookup(es: seq<Entry>, key: string): (r: Option<Value>)
    ensures r.None? <==> forall i :: 0 <= i < |es| ==> es[i].key != key
  {
    if es == [] then None
    else if es[0].key == key then Some(es[0].value)
    else Lookup(es[1..], key)
  }

  /** `section.getConfigurationSection(key)`: the nested section, or null when the key holds none. */
  function GetSection(es: seq<Entry>, key: string): Option<seq<Entry>>
  {
    match Lookup(es, key)
    case Some(Section(c)) => Some(c)
    case _ => None
  }

  /** The nested section under key, with a missing one read as an empty section. */
  function Child(es: seq<Entry>, key: string): seq<Entry>
  {
    match GetSection(es, key)
    case Some(c) => c
    case None => []
  }

  /** The section reached by following a path, a missing one being empty. */
  function SectionAt(es: seq<Entry>, path: Path): seq<Entry>
    decreases |path|
  {
    if path == [] then es else SectionAt(Child(es, path[0]), path[1..])
  }

  /** `getItemStack` applied to a value: the item, or null for anything that is not an item stack. */
  function ItemOf(v: Value): Slot
  {
    if v.Item? then Some(v.stack) else None
  }

  /** `section.set(key, v)` one level down: overwrite in place when the key exists, else append. */
  function Put(es: seq<Entry>, key: string, v: Value): seq<Entry>
  {
    if es == [] then [Entry(key, v)]
    else if es[0].key == key then [Entry(key, v)] + es[1..]
    else [es[0]] + Put(es[1..], key, v)
  }

  /**
   * `configuration.set(path, v)`: every intermediate key that does not
   * already hold a section gets a new empty one (`createSection`), then the
   * last key is set in the innermost section.
   */
  function Set(es: seq<Entry>, path: Path, v: Value): seq<Entry>
    requires |path| >= 1
    decreases |path|
  {
    if |path| == 1 then Put(es, path[0], v)
    else Put(es, path[0], Section(Set(Child(es, path[0]), path[1..], v)))
  }

  /** Two paths that part ways at some key both of them have. */
  predicate Diverge(p: Path, q: Path)
    decreases |p|
  {
    |p| > 0 && |q| > 0 && (p[0] != q[0] || Diverge(p[1..], q[1..]))
  }

  // ---------------------------------------------------------------------
  // Lemmas
  // ---------------------------------------------------------------------

  /** Setting a key changes what that key reads and nothing else. */
  lemma {:induction false} LookupPut(es: seq<Entry>, key: string, v: Value, other: string)
    ensures Lookup(Put(es, key, v), other) == if other == key then Some(v) else Lookup(es, other)
  {
    if es != [] && es[0].key != key {
      LookupPut(es[1..], key, v, other);
    }
  }

  /** Setting a key the section does not have appends it. */
  lemma {:induction false} PutFresh(es: seq<Entry>, key: string, v: Value)
    requires Lookup(es, key).None?
    ensures Put(es, key, v) == es + [Entry(key, v)]
  {
    if es != [] {
      PutFresh(es[1..], key, v);
    }
  }

  /** Looking up in a concatenation looks in the first part first. */
  lemma {:induction false} LookupAppend(a: seq<Entry>, b: seq<Entry>, key: string)
    ensures Lookup(a + b, key) == if Lookup(a, key).Some? then Lookup(a, key) else Lookup(b, key)
  {
    if a != [] {
      assert (a + b)[1..] == a[1..] + b;
      LookupAppend(a[1..], b, key);
    } else {
      assert a + b == b;
    }
  }

  lemma ChildPut(es: seq<Entry>, key: string, v: Value, other: string)
    ensures Child(Put(es, key, v), other) == if other == key then (if v.Section? then v.entries else []) else Child(es, other)
  {
    LookupPut(es, key, v, other);
  }

  lemma {:induction false} SectionAtEmpty(path: Path)
    ensures SectionAt([], path) == []
    decreases |path|
  {
    if path != [] {
      SectionAtEmpty(path[1..]);
    }
  }

  /** Setting `p + [k]` puts k into the section at p, whatever lay on the way before. */
  lemma {:induction false} SectionAtSet(es: seq<Entry>, p: Path, key: string, v: Value)
    ensures SectionAt(Set(es, p + [key], v), p) == Put(SectionAt(es, p), key, v)
    decreases |p|
  {
    if p != [] {
      var inner := Set(Child(es, p[0]), p[1..] + [key], v);
      assert (p + [key])[0] == p[0] && (p + [key])[1..] == p[1..] + [key];
      assert Set(es, p + [key], v) == Put(es, p[0], Section(inner));
      ChildPut(es, p[0], Section(inner), p[0]);
      SectionAtSet(Child(es, p[0]), p[1..], key, v);
    }
  }

  /** Setting a path that parts ways with p leaves the section at p as it was. */
  lemma {:induction false} SectionAtSetElsewhere(es: seq<Entry>, q: Path, v: Value, p: Path)
    requires |q| >= 1 && Diverge(p, q)
    ensures SectionAt(Set(es, q, v), p) == SectionAt(es, p)
    decreases |p|
  {
    if p[0] != q[0] {
      if |q| == 1 {
        ChildPut(es, q[0], v, p[0]);
      } else {
        ChildPut(es, q[0], Section(Set(Child(es, q[0]), q[1..], v)), p[0]);
      }
    } else {
      ChildPut(es, q[0], Section(Set(Child(es, q[0]), q[1..], v)), p[0]);
      SectionAtSetElsewhere(Child(es, q[0]), q[1..], v, p[1..]);
    }
  }

  lemma {:induction false} DivergeExtend(p: Path, q: Path, key: string)
    requires Diverge(p, q)
    ensures Diverge(p, q + [key])
    decreases |p|
  {
    assert (q + [key])[0] == q[0];
    if p[0] == q[0] {
      assert (q + [key])[1..] == q[1..] + [key];
      DivergeExtend(p[1..], q[1..], key);
    }
  }
}
