/**
 * The relation-path argument both macros accept, and how each turns it into
 * an ordered list of (key, filter) entries: a dotted string is split on
 * '.', a PHP array is copied key by key into a fresh array, which keeps a
 * repeated key at its first position with its last value. Also the parsing
 * of a join key `left@name` into a relation name and a join mode, and the
 * lookup of a relation name on the current model.
 */
module RelationPath {
  import opened Eloquent

  /** A PHP array key. */
  datatype Key = IntKey(index: int) | StrKey(name: string)

  /** A PHP array value of a relation path: null, a string, or a filter callback. */
  datatype Value = Null | Str(text: string) | Callback(filter: Closure)

  type Entry = (Key, Value)

  /** The `string|array` argument of the macros. */
  datatype Path = Dotted(path: string) | Entries(entries: seq<Entry>)

  // ---------------------------------------------------------------------
  // explode('.', $path) and its inverse

  function Dots(s: string): nat
  {
    if s == [] then 0 else (if s[0] == '.' then 1 else 0) + Dots(s[1..])
  }

  /** `explode('.', s)`: the maximal dot-free segments of `s`, in order. */
  function Explode(s: string): (parts: seq<string>)
    ensures |parts| == Dots(s) + 1
    ensures forall i | 0 <= i < |parts| :: '.' !in parts[i]
  {
    if s == [] then [""]
    else
      var rest := Explode(s[1..]);
      if s[0] == '.' then [""] + rest
      else [[s[0]] + rest[0]] + rest[1..]
  }

  /** `implode('.', parts)`. */
  function Implode(parts: seq<string>): string
    requires |parts| >= 1
  {
    if |parts| == 1 then parts[0] else parts[0] + "." + Implode(parts[1..])
  }

  lemma {:induction false} ImplodeExplode(s: string)
    ensures Implode(Explode(s)) == s
  {
    if s != [] {
      var rest := Explode(s[1..]);
      ImplodeExplode(s[1..]);
      if s[0] == '.' {
        assert Explode(s) == [""] + rest;
        assert ([""] + rest)[1..] == rest;
      } else {
        var parts := [[s[0]] + rest[0]] + rest[1..];
        assert Explode(s) == parts;
        if |rest| == 1 {
          assert Implode(parts) == [s[0]] + rest[0];
        } else {
          assert parts[1..] == rest[1..];
          assert Implode(rest) == rest[0] + "." + Implode(rest[1..]);
        }
        assert s == [s[0]] + s[1..];
      }
    }
  }

  lemma {:induction false} ExplodeSegment(a: string)
    requires '.' !in a
    ensures Explode(a) == [a]
  {
    if a != [] {
      ExplodeSegment(a[1..]);
      assert a == [a[0]] + a[1..];
    }
  }

  lemma {:induction false} ExplodeAfterSegment(a: string, b: string)
    requires '.' !in a
    ensures Explode(a + "." + b) == [a] + Explode(b)
  {
    if a == [] {
      assert a + "." + b == ['.'] + b;
      assert (['.'] + b)[1..] == b;
    } else {
      ExplodeAfterSegment(a[1..], b);
      var s := a + "." + b;
      assert s[0] == a[0] && s[1..] == a[1..] + "." + b;
      assert a == [a[0]] + a[1..];
    }
  }

  lemma {:induction false} ExplodeImplode(parts: seq<string>)
    requires |parts| >= 1
    requires forall i | 0 <= i < |parts| :: '.' !in parts[i]
    ensures Explode(Implode(parts)) == parts
  {
    if |parts| == 1 {
      ExplodeSegment(parts[0]);
    } else {
      ExplodeImplode(parts[1..]);
      ExplodeAfterSegment(parts[0], Implode(parts[1..]));
      assert parts == [parts[0]] + parts[1..];
    }
  }

  // ---------------------------------------------------------------------
  // getRelations

  /** The list the macro iterates: the array itself, or `explode('.', $path)` with keys 0, 1, ... */
  function ListOf(path: Path): seq<Entry>
  {
    match path
    case Entries(entries) => entries
    case Dotted(s) =>
      var parts := Explode(s);
      seq(|parts|, i requires 0 <= i < |parts| => (IntKey(i), Str(parts[i])))
  }

  /** One iteration of getRelations: a string under an integer key becomes a name with no filter. */
  function Normalize(e: Entry): Entry
  {
    if e.1.Str? && e.0.IntKey? then (StrKey(e.1.text), Null) else e
  }

  /** The position of key `k` in an ordered array. */
  function Lookup(d: seq<Entry>, k: Key): (p: Option<nat>)
    ensures p.Some? ==> p.value < |d| && d[p.value].0 == k
    ensures p.None? ==> forall i | 0 <= i < |d| :: d[i].0 != k
  {
    if d == [] then None
    else if d[|d| - 1].0 == k then Some(|d| - 1)
    else Lookup(d[..|d| - 1], k)
  }

  /** `$d[$k] = $v` on an ordered array. */
  function Put(d: seq<Entry>, k: Key, v: Value): seq<Entry>
  {
    match Lookup(d, k)
    case Some(p) => d[p := (k, v)]
    case None => d + [(k, v)]
  }

  /** The array getRelations returns after processing all of `es`. */
  function Collect(es: seq<Entry>): (r: seq<Entry>)
    ensures |r| <= |es|
    ensures es != [] ==> r != []
  {
    if es == [] then []
    else
      var e := Normalize(es[|es| - 1]);
      Put(Collect(es[..|es| - 1]), e.0, e.1)
  }

  method GetRelations(relationName: Path) returns (relations: seq<Entry>)
    ensures relations == Collect(ListOf(relationName))
  {
    var list := ListOf(relationName);
    relations := [];
    for i := 0 to |list|
      invariant relations == Collect(list[..i])
    {
      assert list[..i + 1][..i] == list[..i];
      var (key, r) := list[i];
      if r.Str? && key.IntKey? {
        relations := Put(relations, StrKey(r.text), Null);
      } else {
        relations := Put(relations, key, r);
      }
    }
    assert list[..|list|] == list;
  }

  predicate DistinctKeys(d: seq<Entry>)
  {
    forall i, j | 0 <= i < j < |d| :: d[i].0 != d[j].0
  }

  function KeySet(d: seq<Entry>): set<Key>
  {
    set i | 0 <= i < |d| :: d[i].0
  }

  /** The keys the entries of `es` are stored under. */
  function NormalizedKeys(es: seq<Entry>): set<Key>
  {
    set i | 0 <= i < |es| :: Normalize(es[i]).0
  }

  /** Whether entry `j` is the last one stored under its key. */
  predicate LastWrite(es: seq<Entry>, j: nat)
    requires j < |es|
  {
    forall l | j < l < |es| :: Normalize(es[l]).0 != Normalize(es[j]).0
  }

  /** The position of the first entry of `es` stored under `k` (|es| if none). */
  function FirstIndex(es: seq<Entry>, k: Key): nat
  {
    if es == [] then 0
    else if Normalize(es[0]).0 == k then 0
    else 1 + FirstIndex(es[1..], k)
  }

  lemma {:induction false} FirstIndexBound(es: seq<Entry>, k: Key)
    ensures FirstIndex(es, k) <= |es|
    ensures FirstIndex(es, k) < |es| <==> k in NormalizedKeys(es)
    ensures FirstIndex(es, k) < |es| ==> Normalize(es[FirstIndex(es, k)]).0 == k
  {
    if es != [] {
      FirstIndexBound(es[1..], k);
      if Normalize(es[0]).0 != k {
        if k in NormalizedKeys(es) {
          var i :| 0 <= i < |es| && Normalize(es[i]).0 == k;
          assert i > 0 && Normalize(es[1..][i - 1]).0 == k;
        }
        if k in NormalizedKeys(es[1..]) {
          var i :| 0 <= i < |es[1..]| && Normalize(es[1..][i]).0 == k;
          assert Normalize(es[i + 1]).0 == k;
        }
      }
    }
  }

  lemma {:induction false} FirstIndexAppend(es: seq<Entry>, e: Entry, k: Key)
    ensures k in NormalizedKeys(es) ==> FirstIndex(es + [e], k) == FirstIndex(es, k)
    ensures k !in NormalizedKeys(es) && Normalize(e).0 == k ==> FirstIndex(es + [e], k) == |es|
  {
    if es != [] {
      assert (es + [e])[1..] == es[1..] + [e];
      FirstIndexAppend(es[1..], e, k);
      if Normalize(es[0]).0 != k && k in NormalizedKeys(es) {
        var i :| 0 <= i < |es| && Normalize(es[i]).0 == k;
        assert Normalize(es[1..][i - 1]).0 == k;
      }
    }
  }

  /** getRelations stores every key once, and exactly the keys of its input. */
  lemma CollectKeys(es: seq<Entry>)
    ensures DistinctKeys(Collect(es))
    ensures KeySet(Collect(es)) == NormalizedKeys(es)
  {
    CollectKeysDistinct(es);
    CollectKeySet(es);
  }

  lemma {:induction false} CollectKeysDistinct(es: seq<Entry>)
    ensures DistinctKeys(Collect(es))
  {
    if es != [] {
      var e := Normalize(es[|es| - 1]);
      CollectKeysDistinct(es[..|es| - 1]);
      DistinctKeysPut(Collect(es[..|es| - 1]), e.0, e.1);
    }
  }

  /** `$d[$k] = $v` keeps the keys of `d` distinct. */
  lemma DistinctKeysPut(d: seq<Entry>, k: Key, v: Value)
    requires DistinctKeys(d)
    ensures DistinctKeys(Put(d, k, v))
  {
    var c := Put(d, k, v);
    match Lookup(d, k)
    case Some(p) =>
      assert forall i | 0 <= i < |d| :: c[i].0 == d[i].0;
    case None =>
      assert forall i | 0 <= i < |d| :: c[i] == d[i];
  }

  lemma {:induction false} CollectKeySet(es: seq<Entry>)
    ensures KeySet(Collect(es)) == NormalizedKeys(es)
  {
    if es != [] {
      var init := es[..|es| - 1];
      var e := Normalize(es[|es| - 1]);
      CollectKeySet(init);
      NormalizedKeysSnoc(es);
      KeySetPut(Collect(init), e.0, e.1);
    }
  }

  lemma NormalizedKeysSnoc(es: seq<Entry>)
    requires es != []
    ensures NormalizedKeys(es) == NormalizedKeys(es[..|es| - 1]) + {Normalize(es[|es| - 1]).0}
  {
    var init := es[..|es| - 1];
    forall k | k in NormalizedKeys(es) ensures k in NormalizedKeys(init) + {Normalize(es[|es| - 1]).0} {
      var i :| 0 <= i < |es| && Normalize(es[i]).0 == k;
      if i < |es| - 1 { assert Normalize(init[i]).0 == k; }
    }
    forall k | k in NormalizedKeys(init) ensures k in NormalizedKeys(es) {
      var i :| 0 <= i < |init| && Normalize(init[i]).0 == k;
      assert Normalize(es[i]).0 == k;
    }
  }

  /** `$d[$k] = $v` adds `k` to the keys of `d`. */
  lemma KeySetPut(d: seq<Entry>, k: Key, v: Value)
    ensures KeySet(Put(d, k, v)) == KeySet(d) + {k}
  {
    var c := Put(d, k, v);
    match Lookup(d, k)
    case Some(p) =>
      forall x | x in KeySet(d) ensures x in KeySet(c) {
        var i :| 0 <= i < |d| && d[i].0 == x;
        assert c[i].0 == x;
      }
      assert c[p].0 == k;
    case None =>
      forall x | x in KeySet(d) ensures x in KeySet(c) {
        var i :| 0 <= i < |d| && d[i].0 == x;
        assert c[i].0 == x;
      }
      assert c[|d|].0 == k;
  }

  /** getRelations stores each key under the value of its last write. */
  lemma {:induction false} CollectLastWrite(es: seq<Entry>)
    ensures forall j | 0 <= j < |es| && LastWrite(es, j) :: Normalize(es[j]) in Collect(es)
  {
    if es != [] {
      var n := |es| - 1;
      var init := es[..n];
      var e := Normalize(es[n]);
      CollectLastWrite(init);
      CollectKeys(init);
      var d := Collect(init);
      var c := Collect(es);
      forall j | 0 <= j < |es| && LastWrite(es, j) ensures Normalize(es[j]) in c {
        if j == n {
          match Lookup(d, e.0)
          case Some(p) => assert c[p] == e;
          case None => assert c[|d|] == e;
        } else {
          assert LastWrite(init, j) by {
            forall l | j < l < |init| ensures Normalize(init[l]).0 != Normalize(init[j]).0 {
              assert init[l] == es[l];
            }
          }
          assert init[j] == es[j];
          var x := Normalize(es[j]);
          assert x in d;
          assert x.0 != e.0;
          var i :| 0 <= i < |d| && d[i] == x;
          match Lookup(d, e.0)
          case Some(p) => assert p != i && c[i] == x;
          case None => assert c[i] == x;
        }
      }
    }
  }

  /** getRelations keeps the keys in the order of their first occurrence. */
  lemma {:induction false} CollectFirstOrder(es: seq<Entry>)
    ensures forall p, q | 0 <= p < q < |Collect(es)| ::
              FirstIndex(es, Collect(es)[p].0) < FirstIndex(es, Collect(es)[q].0)
  {
    if es != [] {
      var n := |es| - 1;
      var init := es[..n];
      var e := Normalize(es[n]);
      assert es == init + [es[n]];
      CollectFirstOrder(init);
      CollectKeys(init);
      var d := Collect(init);
      var c := Collect(es);
      forall p, q | 0 <= p < q < |c| ensures FirstIndex(es, c[p].0) < FirstIndex(es, c[q].0) {
        match Lookup(d, e.0)
        case Some(r) =>
          OrderKept(init, es[n], d[p].0, d[q].0);
          assert c[p].0 == d[p].0 && c[q].0 == d[q].0;
        case None =>
          if q < |d| {
            OrderKept(init, es[n], d[p].0, d[q].0);
            assert c[p].0 == d[p].0 && c[q].0 == d[q].0;
          } else {
            assert c[p].0 == d[p].0 && c[q].0 == e.0;
            assert d[p].0 in KeySet(d);
            FirstIndexAppend(init, es[n], d[p].0);
            FirstIndexAppend(init, es[n], e.0);
            FirstIndexBound(init, d[p].0);
          }
      }
    }
  }

  lemma OrderKept(init: seq<Entry>, last: Entry, a: Key, b: Key)
    requires a in NormalizedKeys(init) && b in NormalizedKeys(init)
    requires FirstIndex(init, a) < FirstIndex(init, b)
    ensures FirstIndex(init + [last], a) < FirstIndex(init + [last], b)
  {
    FirstIndexAppend(init, last, a);
    FirstIndexAppend(init, last, b);
  }

  /**
   * What getRelations returns: every key occurs once, the keys are those of
   * the input, each holds the value of its last write, and the keys keep the
   * order of their first occurrence.
   */
  lemma CollectSemantics(es: seq<Entry>)
    ensures DistinctKeys(Collect(es))
    ensures KeySet(Collect(es)) == NormalizedKeys(es)
    ensures forall j | 0 <= j < |es| && LastWrite(es, j) :: Normalize(es[j]) in Collect(es)
    ensures forall p, q | 0 <= p < q < |Collect(es)| ::
              FirstIndex(es, Collect(es)[p].0) < FirstIndex(es, Collect(es)[q].0)
  {
    CollectKeys(es);
    CollectLastWrite(es);
    CollectFirstOrder(es);
  }

  /** When no key repeats, getRelations keeps every entry in place. */
  lemma {:induction false} CollectDistinct(es: seq<Entry>)
    requires forall i, j | 0 <= i < j < |es| :: Normalize(es[i]).0 != Normalize(es[j]).0
    ensures Collect(es) == seq(|es|, i requires 0 <= i < |es| => Normalize(es[i]))
  {
    if es != [] {
      var n := |es| - 1;
      var init := es[..n];
      assert forall i | 0 <= i < n :: init[i] == es[i];
      CollectDistinct(init);
      var d := Collect(init);
      var e := Normalize(es[n]);
      assert forall i | 0 <= i < |d| :: d[i] == Normalize(es[i]);
      assert Lookup(d, e.0).None?;
      assert Collect(es) == d + [e];
    }
  }

  /**
   * A dotted path yields its segments as relation names, each without a
   * filter; with no segment repeated, in order and one entry per segment.
   */
  lemma DottedPath(s: string)
    ensures forall p | 0 <= p < |Collect(ListOf(Dotted(s)))| ::
              Collect(ListOf(Dotted(s)))[p].1 == Null && Collect(ListOf(Dotted(s)))[p].0.StrKey?
    ensures (forall i, j | 0 <= i < j < |Explode(s)| :: Explode(s)[i] != Explode(s)[j]) ==>
              Collect(ListOf(Dotted(s))) == seq(|Explode(s)|, i requires 0 <= i < |Explode(s)| => (StrKey(Explode(s)[i]), Null))
  {
    var es := ListOf(Dotted(s));
    var parts := Explode(s);
    assert forall i | 0 <= i < |es| :: Normalize(es[i]) == (StrKey(parts[i]), Null);
    CollectSemantics(es);
    var c := Collect(es);
    forall p | 0 <= p < |c| ensures c[p].1 == Null && c[p].0.StrKey? {
      // every stored key carries the value of its last write, which is Null
      assert c[p].0 in NormalizedKeys(es);
      var j :| 0 <= j < |es| && Normalize(es[j]).0 == c[p].0;
      var last := LastWriteOf(es, j);
      assert Normalize(es[last]) in c;
      var i :| 0 <= i < |c| && c[i] == Normalize(es[last]);
      assert c[i].0 == c[p].0;
      assert i == p;
    }
    if forall i, j | 0 <= i < j < |parts| :: parts[i] != parts[j] {
      CollectDistinct(es);
    }
  }

  /** The last write to the key of entry `j`. */
  lemma {:induction false} LastWriteOf(es: seq<Entry>, j: nat) returns (last: nat)
    requires j < |es|
    ensures j <= last < |es| && Normalize(es[last]).0 == Normalize(es[j]).0 && LastWrite(es, last)
    decreases |es| - j
  {
    if LastWrite(es, j) {
      last := j;
    } else {
      var l :| j < l < |es| && Normalize(es[l]).0 == Normalize(es[j]).0;
      last := LastWriteOf(es, l);
    }
  }

  // ---------------------------------------------------------------------
  // The join key `word@name` (JoinRelationMacro lines 30-31)

  /** PCRE's `\w` without the `u` modifier. */
  predicate IsWordChar(c: char)
  {
    ('a' <= c <= 'z') || ('A' <= c <= 'Z') || ('0' <= c <= '9') || c == '_'
  }

  predicate IsWord(s: string)
  {
    forall k | 0 <= k < |s| :: IsWordChar(s[k])
  }

  /** The end of the run of word characters starting at `i`. */
  function WordEnd(s: string, i: nat): (j: nat)
    requires i <= |s|
    ensures i <= j <= |s|
    ensures forall k | i <= k < j :: IsWordChar(s[k])
    ensures j < |s| ==> !IsWordChar(s[j])
    decreases |s| - i
  {
    if i < |s| && IsWordChar(s[i]) then WordEnd(s, i + 1) else i
  }

  /**
   * `preg_replace('/(?:[\w_]*@)?([\w_]+)/', '$1', s)` from position `i`:
   * each leftmost match is replaced by its word run after `@`, or is kept
   * when it has no `@` part; other characters are copied.
   */
  function StripFrom(s: string, i: nat): (r: string)
    requires i <= |s|
    ensures |r| <= |s| - i
    ensures '@' !in s[i..] ==> r == s[i..]
    decreases |s| - i
  {
    if i == |s| then ""
    else
      var j := WordEnd(s, i);
      if j + 1 < |s| && s[j] == '@' && IsWordChar(s[j + 1]) then
        var k := WordEnd(s, j + 1);
        s[j + 1..k] + StripFrom(s, k)
      else if i < j then s[i..j] + StripFrom(s, j)
      else [s[i]] + StripFrom(s, i + 1)
  }

  /** The relation name the join macro derives from a key. */
  function RelationNameOf(key: string): (name: string)
    ensures |name| <= |key|
    ensures '@' !in key ==> name == key
  {
    StripFrom(key, 0)
  }

  predicate LeftAt(s: string, i: nat)
  {
    i + 5 < |s| && s[i..i + 5] == "left@" && IsWordChar(s[i + 5])
  }

  /** `preg_match('/left@([\w_]+)/', key)`. */
  function IsLeftJoinKey(key: string): (b: bool)
    ensures b ==> '@' in key
  {
    var b := exists i | 0 <= i < |key| :: LeftAt(key, i);
    assert b ==> '@' in key by {
      if b {
        var i :| 0 <= i < |key| && LeftAt(key, i);
        assert key[i + 4] == key[i..i + 5][4];
      }
    }
    b
  }

  lemma {:induction false} WordEndAt(s: string, i: nat, j: nat)
    requires i <= j <= |s|
    requires forall k | i <= k < j :: IsWordChar(s[k])
    requires j < |s| ==> !IsWordChar(s[j])
    ensures WordEnd(s, i) == j
  {
  }

  /** A key of word characters names itself and asks for an inner join. */
  lemma PlainKey(key: string)
    requires IsWord(key)
    ensures RelationNameOf(key) == key
    ensures !IsLeftJoinKey(key)
  {
  }

  /**
   * A key `prefix@name` of word characters names `name`, and asks for a left
   * join exactly when the prefix ends in `left`.
   */
  lemma PrefixedKey(prefix: string, name: string)
    requires IsWord(prefix) && IsWord(name) && name != []
    ensures RelationNameOf(prefix + "@" + name) == name
    ensures IsLeftJoinKey(prefix + "@" + name) <==> |prefix| >= 4 && prefix[|prefix| - 4..] == "left"
  {
    PrefixedKeyName(prefix, name);
    PrefixedKeyLeft(prefix, name);
  }

  lemma PrefixedKeyName(prefix: string, name: string)
    requires IsWord(prefix) && IsWord(name) && name != []
    ensures RelationNameOf(prefix + "@" + name) == name
  {
    var s := prefix + "@" + name;
    var n := |prefix|;
    assert s[n] == '@' && s[n + 1] == name[0];
    assert forall k | 0 <= k < n :: s[k] == prefix[k];
    assert forall k | n < k < |s| :: s[k] == name[k - n - 1];
    WordEndAt(s, 0, n);
    WordEndAt(s, n + 1, |s|);
    assert s[n + 1..|s|] == name;
    assert StripFrom(s, |s|) == "";
    assert StripFrom(s, 0) == name + StripFrom(s, |s|);
  }

  lemma PrefixedKeyLeft(prefix: string, name: string)
    requires IsWord(prefix) && IsWord(name) && name != []
    ensures IsLeftJoinKey(prefix + "@" + name) <==> |prefix| >= 4 && prefix[|prefix| - 4..] == "left"
  {
    var s := prefix + "@" + name;
    var n := |prefix|;
    if IsLeftJoinKey(s) {
      var i :| 0 <= i < |s| && LeftAt(s, i);
      assert forall k | 0 <= k < |s| && k != n :: IsWordChar(s[k]) by {
        forall k | 0 <= k < |s| && k != n ensures IsWordChar(s[k]) {
          if k < n { assert s[k] == prefix[k]; } else { assert s[k] == name[k - n - 1]; }
        }
      }
      assert s[i + 4] == s[i..i + 5][4] == '@';
      assert i + 4 == n;
      assert prefix[n - 4..] == s[i..i + 5][..4];
    }
    if n >= 4 && prefix[n - 4..] == "left" {
      assert s[n - 4..n + 1] == prefix[n - 4..] + "@";
      assert s[n + 1] == name[0];
      assert LeftAt(s, n - 4);
    }
  }

  /** A key `prefix@` with nothing after the `@` is taken verbatim and asks for an inner join. */
  lemma DanglingAtKey(prefix: string)
    requires IsWord(prefix)
    ensures RelationNameOf(prefix + "@") == prefix + "@"
    ensures !IsLeftJoinKey(prefix + "@")
  {
    var s := prefix + "@";
    var n := |prefix|;
    WordEndAt(s, 0, n);
    WordEndAt(s, n, n);
    assert StripFrom(s, n + 1) == "";
    assert StripFrom(s, n) == "@";
    if n > 0 {
      assert s[0..n] == prefix;
    }
    forall i | 0 <= i < |s| ensures !LeftAt(s, i) {
      if i + 5 < |s| {
        assert s[i + 4] == prefix[i + 4];
      }
    }
  }

  // ---------------------------------------------------------------------
  // `$m->{$relationName}()` and the dispatch on its kind

  /**
   * Resolves one entry against the current model, in the order the macros
   * fail: no such relation method, then a relation kind not handled, then a
   * filter that is not callable.
   */
  function Resolve(m: Model, name: string, value: Value): (r: Result<(Relation, Option<Closure>)>)
    ensures r.Success? <==> name in m.relations && !m.relations[name].Other? && !value.Str?
    ensures name !in m.relations ==> r == Failure(BadMethodCall)
    ensures name in m.relations && m.relations[name].Other? ==> r == Failure(RelationNotFollowed)
    ensures r.Success? ==> r.value.0 == m.relations[name]
    ensures r.Success? ==> r.value.1 == (if value.Callback? then Some(value.filter) else None)
  {
    if name !in m.relations then Failure(BadMethodCall)
    else
      var relation := m.relations[name];
      if relation.Other? then Failure(RelationNotFollowed)
      else
        match value
        case Null => Success((relation, None))
        case Callback(c) => Success((relation, Some(c)))
        case Str(_) => Failure(TypeError)
  }
}
