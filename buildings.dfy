// App.init_building_list of app.py: the names offered in the start and
// destination pickers. Every key of the points file that does not start
// with 'p' is listed, ordered by (x[1], x[0], x left-padded to width 4 with
// '0'); `sorted` is stable, so names with equal sort keys keep file order.
module Buildings {
  import opened Wrappers

  /** A key of the points file names a building, not a path point. */
  predicate Listed(x: string) {
    |x| > 0 && x[0] != 'p'
  }

  /** `"{0:0>4}".format(x)`: `x` right-aligned in a field of four, filled with '0'. */
  function Pad(x: string): (r: string)
    ensures |r| == if |x| < 4 then 4 else |x|
    ensures r[|r| - |x|..] == x
    ensures forall i :: 0 <= i < |r| - |x| ==> r[i] == '0'
  {
    if |x| < 4 then seq(4 - |x|, _ => '0') + x else x
  }

  /** Python's `<` on str: code point by code point, a proper prefix first. */
  predicate StrLess(a: string, b: string) {
    if a == [] then b != []
    else if b == [] then false
    else a[0] < b[0] || (a[0] == b[0] && StrLess(a[1..], b[1..]))
  }

  lemma {:induction false} StrLessIrreflexive(a: string)
    ensures !StrLess(a, a)
  {
    if a != [] {
      StrLessIrreflexive(a[1..]);
    }
  }

  lemma {:induction false} StrLessTransitive(a: string, b: string, c: string)
    requires StrLess(a, b) && StrLess(b, c)
    ensures StrLess(a, c)
  {
    if a != [] && a[0] == b[0] && b[0] == c[0] {
      StrLessTransitive(a[1..], b[1..], c[1..]);
    }
  }

  /** The tuple the `key=` lambda builds. */
  datatype SortKey = SortKey(second: char, first: char, padded: string)

  function KeyOf(x: string): SortKey
    requires |x| >= 2
  {
    SortKey(x[1], x[0], Pad(x))
  }

  /** Python's `<` on two such tuples: the first differing component decides. */
  predicate KeyLess(a: SortKey, b: SortKey) {
    || a.second < b.second
    || (a.second == b.second && a.first < b.first)
    || (a.second == b.second && a.first == b.first && StrLess(a.padded, b.padded))
  }

  /** The tuple order is a strict order, so sorting by it is well defined. */
  lemma KeyLessStrictOrder(a: SortKey, b: SortKey, c: SortKey)
    ensures !KeyLess(a, a)
    ensures KeyLess(a, b) && KeyLess(b, c) ==> KeyLess(a, c)
  {
    StrLessIrreflexive(a.padded);
    if KeyLess(a, b) && KeyLess(b, c) && a.second == c.second && a.first == c.first {
      StrLessTransitive(a.padded, b.padded, c.padded);
    }
  }

  /** Python's comparison of two names through the `key=` lambda. */
  predicate BuildingLess(a: string, b: string) {
    |a| >= 2 && |b| >= 2 && KeyLess(KeyOf(a), KeyOf(b))
  }

  lemma BuildingLessStrictOrder()
    ensures StrictOrder(BuildingLess)
  {
    forall a | |a| >= 2
      ensures !BuildingLess(a, a)
    {
      KeyLessStrictOrder(KeyOf(a), KeyOf(a), KeyOf(a));
    }
    forall a, b, c | BuildingLess(a, b) && BuildingLess(b, c)
      ensures BuildingLess(a, c)
    {
      KeyLessStrictOrder(KeyOf(a), KeyOf(b), KeyOf(c));
    }
  }

  /** `less` is irreflexive and transitive. */
  ghost predicate StrictOrder(less: (string, string) -> bool) {
    && (forall a :: !less(a, a))
    && (forall a, b, c :: less(a, b) && less(b, c) ==> less(a, c))
  }

  /** No element is placed after one that is less than it. */
  predicate SortedBy(s: seq<string>, less: (string, string) -> bool) {
    forall i, j :: 0 <= i < j < |s| ==> !less(s[j], s[i])
  }

  /** Places `x` after every element that `x` is not less than. */
  function Insert(x: string, s: seq<string>, less: (string, string) -> bool): (r: seq<string>)
    ensures multiset(r) == multiset(s) + multiset{x}
  {
    if s == [] || less(x, s[0]) then [x] + s
    else
      assert s == [s[0]] + s[1..];
      [s[0]] + Insert(x, s[1..], less)
  }

  lemma {:induction false} InsertSorted(x: string, s: seq<string>, less: (string, string) -> bool)
    requires StrictOrder(less) && SortedBy(s, less)
    ensures SortedBy(Insert(x, s, less), less)
  {
    if s == [] {
    } else if less(x, s[0]) {
      InsertFront(x, s, less);
    } else {
      InsertSorted(x, s[1..], less);
      InsertBehind(x, s, Insert(x, s[1..], less), less);
    }
  }

  /** `x` goes in front of a sorted list whose head it is less than. */
  lemma InsertFront(x: string, s: seq<string>, less: (string, string) -> bool)
    requires StrictOrder(less) && SortedBy(s, less) && s != [] && less(x, s[0])
    ensures SortedBy([x] + s, less)
  {
    var r := [x] + s;
    forall i, j | 0 <= i < j < |r|
      ensures !less(r[j], r[i])
    {
      if i == 0 {
        assert r[j] == s[j - 1];
      } else {
        assert r[i] == s[i - 1] && r[j] == s[j - 1];
      }
    }
  }

  /** The head stays in front when `x` is inserted into the tail. */
  lemma InsertBehind(x: string, s: seq<string>, t: seq<string>, less: (string, string) -> bool)
    requires SortedBy(s, less) && s != [] && !less(x, s[0])
    requires SortedBy(t, less) && multiset(t) == multiset(s[1..]) + multiset{x}
    ensures SortedBy([s[0]] + t, less)
  {
    var r := [s[0]] + t;
    forall i, j | 0 <= i < j < |r|
      ensures !less(r[j], r[i])
    {
      if i == 0 {
        assert r[j] == t[j - 1] && t[j - 1] in multiset(t);
        if r[j] != x {
          var k :| 0 <= k < |s| - 1 && s[1..][k] == r[j];
          assert s[k + 1] == r[j];
        }
      } else {
        assert r[i] == t[i - 1] && r[j] == t[j - 1];
      }
    }
  }

  /** Stable insertion sort: the elements are inserted in their original order. */
  function Sort(s: seq<string>, less: (string, string) -> bool): (r: seq<string>)
    ensures multiset(r) == multiset(s)
    decreases |s|
  {
    if s == [] then []
    else
      assert s == s[..|s| - 1] + [s[|s| - 1]];
      Insert(s[|s| - 1], Sort(s[..|s| - 1], less), less)
  }

  lemma {:induction false} SortSorted(s: seq<string>, less: (string, string) -> bool)
    requires StrictOrder(less)
    ensures SortedBy(Sort(s, less), less)
    decreases |s|
  {
    if s != [] {
      SortSorted(s[..|s| - 1], less);
      InsertSorted(s[|s| - 1], Sort(s[..|s| - 1], less), less);
    }
  }

  /** `[key for key in data if key[0] != "p"]`; `""[0]` raises IndexError. */
  function Kept(keys: seq<string>): (r: Result<seq<string>>)
    ensures r.Failure? <==> exists i :: 0 <= i < |keys| && keys[i] == []
    ensures r.Failure? ==> r.error == IndexError
    ensures r.Success? ==> forall x :: x in r.value <==> x in keys && Listed(x)
    ensures r.Success? ==> forall x :: multiset(r.value)[x] == if Listed(x) then multiset(keys)[x] else 0
  {
    if keys == [] then Success([])
    else if keys[0] == [] then Failure(IndexError)
    else
      assert keys == [keys[0]] + keys[1..];
      match Kept(keys[1..])
      case Failure(e) => Failure(e)
      case Success(rest) => Success(if keys[0][0] != 'p' then [keys[0]] + rest else rest)
  }

  /** A name that makes the comprehension or the key function index past its end. */
  predicate TooShort(x: string) {
    x == [] || (x[0] != 'p' && |x| < 2)
  }

  /**
   * `init_building_list` (app.py:169-170) on the keys of the points file in
   * file order: the sorted building names, or IndexError.
   */
  function BuildingList(keys: seq<string>): (r: Result<seq<string>>)
  {
    match Kept(keys)
    case Failure(e) => Failure(e)
    case Success(kept) =>
      if exists i :: 0 <= i < |kept| && |kept[i]| < 2 then Failure(IndexError)
      else Success(Sort(kept, BuildingLess))
  }

  /**
   * The list holds exactly the names that do not start with 'p', each as often
   * as in the file, in key order; it fails exactly when some name is too short.
   */
  lemma BuildingListMeaning(keys: seq<string>)
    ensures var r := BuildingList(keys);
            && (r.Failure? <==> exists i :: 0 <= i < |keys| && TooShort(keys[i]))
            && (r.Failure? ==> r.error == IndexError)
            && (r.Success? ==> Kept(keys).Success? && multiset(r.value) == multiset(Kept(keys).value))
            && (r.Success? ==> forall x :: x in r.value <==> x in keys && Listed(x))
            && (r.Success? ==> forall x :: multiset(r.value)[x] == if Listed(x) then multiset(keys)[x] else 0)
            && (r.Success? ==> SortedBy(r.value, BuildingLess))
  {
    var k := Kept(keys);
    if k.Success? {
      if exists i :: 0 <= i < |k.value| && |k.value[i]| < 2 {
        var i :| 0 <= i < |k.value| && |k.value[i]| < 2;
        assert k.value[i] in keys;
      } else {
        BuildingLessStrictOrder();
        SortSorted(k.value, BuildingLess);
        var r := Sort(k.value, BuildingLess);
        forall x
          ensures x in r <==> x in k.value
        {
          assert x in r <==> x in multiset(r);
        }
        forall i | 0 <= i < |keys|
          ensures !TooShort(keys[i])
        {
          if Listed(keys[i]) {
            assert keys[i] in k.value;
          }
        }
      }
    }
  }
}
