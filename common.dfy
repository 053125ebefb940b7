/** Shared vocabulary of the route modules: optional values, the user roles,
    the JSON reply envelope, Python truthiness of request arguments, the
    required-field loop, and the table scans, filters and orderings the
    queries rely on. */
module Common {

  datatype Option<+T> = None | Some(value: T)

  /** `if month:` on an optional integer query argument: absent and 0 are false. */
  predicate IntGiven(o: Option<int>) {
    o.Some? && o.value != 0
  }

  /** `if category:` / `not data[field]` on an optional string: absent and "" are false. */
  predicate TextGiven(o: Option<string>) {
    o.Some? && o.value != ""
  }

  /** The closed role enumeration of the User model. */
  datatype Role = SuperUser | Teacher | JuniorUstadh | Student {
    /** The value the role has in the session payload and in the database. */
    function Name(): (s: string)
      ensures s != ""
    {
      match this
      case SuperUser => "super_user"
      case Teacher => "teacher"
      case JuniorUstadh => "junior_ustadh"
      case Student => "student"
    }
  }

  /** Role names are distinct, so a session role string names at most one role. */
  lemma RoleNamesDistinct(r1: Role, r2: Role)
    ensures r1.Name() == r2.Name() <==> r1 == r2
  {
  }

  /** The error kinds the handlers put into the `error` field of a failed reply. */
  datatype ApiError =
    | NoSession              // the session carries no user_id
    | RoleRefused            // the caller is unknown or has a role without access
    | FieldRequired(field: string)
    | PhoneInUse
    | NotFound
    | Internal               // an exception caught by the handler's generic `except`

  /** The `{success, data | error}` envelope together with its HTTP status code. */
  datatype Reply<+T> = Ok(code: int, data: T) | Fail(code: int, error: ApiError)

  /** What an access-guard decorator decides: run the handler, or answer with an error. */
  datatype Guard = Proceed | Deny(code: int, error: ApiError)

  /** The `for field in required: if <field fails>: return 400` loop shared by the
      create handlers: the first field, in list order, that fails `present`. */
  method FirstMissing(fields: seq<string>, present: string -> bool) returns (missing: Option<string>)
    ensures missing.None? <==> forall i :: 0 <= i < |fields| ==> present(fields[i])
    ensures missing.Some? ==>
      exists k :: 0 <= k < |fields| && fields[k] == missing.value && !present(fields[k]) &&
        forall j :: 0 <= j < k ==> present(fields[j])
  {
    var i := 0;
    while i < |fields|
      invariant 0 <= i <= |fields|
      invariant forall j :: 0 <= j < i ==> present(fields[j])
    {
      if !present(fields[i]) {
        return Some(fields[i]);
      }
      i := i + 1;
    }
    return None;
  }

  // ---------------------------------------------------------------------------
  // Table scans: a table is a map from auto-increment ids to records.

  /** The ids of `m` below `n`, in increasing order (the order of a table scan). */
  function KeysBelow<V>(m: map<int, V>, n: nat): (ks: seq<int>)
    ensures forall k :: k in ks <==> k in m && 0 <= k < n
    ensures forall i, j :: 0 <= i < j < |ks| ==> ks[i] < ks[j]
    ensures forall i :: 0 <= i < |ks| ==> 0 <= ks[i] < n
  {
    if n == 0 then []
    else
      var prev := KeysBelow(m, n - 1);
      var ks := prev + (if n - 1 in m then [n - 1] else []);
      assert forall i :: 0 <= i < |prev| ==> ks[i] == prev[i];
      assert forall i, j :: 0 <= i < j < |ks| ==> ks[i] < ks[j] by {
        forall i, j | 0 <= i < j < |ks| ensures ks[i] < ks[j] {
          if j >= |prev| {
            assert ks[j] == n - 1 && ks[i] == prev[i];
          }
        }
      }
      ks
  }

  /** The records stored under the ids `ks`, in that order. */
  function ValuesAt<V>(m: map<int, V>, ks: seq<int>): (vs: seq<V>)
    requires forall i :: 0 <= i < |ks| ==> ks[i] in m
    ensures |vs| == |ks|
    ensures forall i :: 0 <= i < |vs| ==> vs[i] == m[ks[i]]
  {
    if ks == [] then [] else ValuesAt(m, ks[..|ks| - 1]) + [m[ks[|ks| - 1]]]
  }

  /** Every id a record stores is its key and lies below `n`. */
  ghost predicate StoresIds<V>(m: map<int, V>, n: nat, idOf: V -> int) {
    forall k :: k in m ==> 0 <= k < n && idOf(m[k]) == k
  }

  /** The keys a scan visits are stored keys whose records store them. */
  lemma ScanKeysStored<V>(m: map<int, V>, n: nat, idOf: V -> int)
    requires StoresIds(m, n, idOf)
    ensures var ks := KeysBelow(m, n);
      forall i :: 0 <= i < |ks| ==> ks[i] in m && idOf(m[ks[i]]) == ks[i]
  {
    var ks := KeysBelow(m, n);
    forall i | 0 <= i < |ks| ensures ks[i] in m && idOf(m[ks[i]]) == ks[i] {
      assert ks[i] in ks;
    }
  }

  /** Each scanned record is stored under the id it stores, and the ids increase. */
  lemma ScanStored<V>(m: map<int, V>, n: nat, idOf: V -> int)
    requires StoresIds(m, n, idOf)
    ensures forall i :: 0 <= i < |KeysBelow(m, n)| ==> KeysBelow(m, n)[i] in m
    ensures var rows := ValuesAt(m, KeysBelow(m, n));
      && (forall i :: 0 <= i < |rows| ==> idOf(rows[i]) in m && m[idOf(rows[i])] == rows[i])
      && (forall i, j :: 0 <= i < j < |rows| ==> idOf(rows[i]) < idOf(rows[j]))
  {
    var ks := KeysBelow(m, n);
    ScanKeysStored(m, n, idOf);
    var rows := ValuesAt(m, ks);
    forall i | 0 <= i < |rows| ensures idOf(rows[i]) == ks[i] && m[ks[i]] == rows[i] {
    }
  }

  /** Every stored record is scanned. */
  lemma ScanCovers<V>(m: map<int, V>, n: nat, idOf: V -> int)
    requires StoresIds(m, n, idOf)
    ensures forall i :: 0 <= i < |KeysBelow(m, n)| ==> KeysBelow(m, n)[i] in m
    ensures forall k :: k in m ==> m[k] in ValuesAt(m, KeysBelow(m, n))
  {
    var ks := KeysBelow(m, n);
    ScanKeysStored(m, n, idOf);
    var rows := ValuesAt(m, ks);
    forall k | k in m ensures m[k] in rows {
      assert k in ks;
      var i :| 0 <= i < |ks| && ks[i] == k;
      assert rows[i] == m[k];
    }
  }

  /** A table scan: the records of `m` in id order, where `idOf` reads the id a
      record stores. Every record once, and only stored ones. */
  function Scan<V>(m: map<int, V>, n: nat, idOf: V -> int): (rows: seq<V>)
    requires forall k :: k in m ==> 0 <= k < n && idOf(m[k]) == k
    ensures forall i :: 0 <= i < |rows| ==> idOf(rows[i]) in m && m[idOf(rows[i])] == rows[i]
    ensures forall i, j :: 0 <= i < j < |rows| ==> idOf(rows[i]) < idOf(rows[j])
    ensures forall k :: k in m ==> m[k] in rows
    ensures Distinct(rows)
  {
    assert StoresIds(m, n, idOf);
    ScanStored(m, n, idOf);
    ScanCovers(m, n, idOf);
    ValuesAt(m, KeysBelow(m, n))
  }

  // ---------------------------------------------------------------------------
  // Filtering and ordering of query results.

  ghost predicate Distinct<T>(s: seq<T>) {
    forall i, j :: 0 <= i < j < |s| ==> s[i] != s[j]
  }

  /** The elements of `s` that satisfy `p`, in their original order (a WHERE clause). */
  function Filter<T>(s: seq<T>, p: T -> bool): (r: seq<T>)
    ensures forall i :: 0 <= i < |r| ==> r[i] in s && p(r[i])
    ensures forall i :: 0 <= i < |s| && p(s[i]) ==> s[i] in r
    ensures Distinct(s) ==> Distinct(r)
  {
    if s == [] then []
    else
      var init, last := s[..|s| - 1], s[|s| - 1];
      assert forall i :: 0 <= i < |init| ==> init[i] == s[i];
      Filter(init, p) + (if p(last) then [last] else [])
  }

  /** Filtering a non-empty sequence filters its front, then keeps or drops the last element. */
  lemma FilterLast<T>(s: seq<T>, p: T -> bool)
    requires s != []
    ensures Filter(s, p) == Filter(s[..|s| - 1], p) + (if p(s[|s| - 1]) then [s[|s| - 1]] else [])
  {
  }

  /** A non-empty sequence is its front followed by its last element. */
  lemma SplitLast<T>(s: seq<T>)
    requires s != []
    ensures s == s[..|s| - 1] + [s[|s| - 1]]
  {
  }

  /** A filter that every element passes keeps the whole sequence. */
  lemma {:induction false} FilterKeepsAll<T>(s: seq<T>, p: T -> bool)
    requires forall i :: 0 <= i < |s| ==> p(s[i])
    ensures Filter(s, p) == s
  {
    if s != [] {
      var init, last := s[..|s| - 1], s[|s| - 1];
      assert forall i :: 0 <= i < |init| ==> p(init[i]) by {
        forall i | 0 <= i < |init| ensures p(init[i]) {
          assert init[i] == s[i];
        }
      }
      FilterKeepsAll(init, p);
      FilterLast(s, p);
      assert p(last);
      SplitLast(s);
    }
  }

  /** Keys never increase along `s` (ORDER BY key DESC). */
  predicate SortedDesc<T>(s: seq<T>, key: T -> int) {
    forall i, j :: 0 <= i < j < |s| ==> key(s[j]) <= key(s[i])
  }

  /** A sequence whose keys are all at most `key(h)` stays key-descending behind `h`. */
  lemma ConsSortedDesc<T>(h: T, t: seq<T>, key: T -> int)
    requires SortedDesc(t, key)
    requires forall i :: 0 <= i < |t| ==> key(t[i]) <= key(h)
    ensures SortedDesc([h] + t, key)
  {
    var r := [h] + t;
    forall i, j | 0 <= i < j < |r| ensures key(r[j]) <= key(r[i]) {
      assert r[j] == t[j - 1];
      if i > 0 {
        assert r[i] == t[i - 1];
      }
    }
  }

  /** The tail of a key-descending sequence is key-descending and bounded by its head. */
  lemma TailSortedDesc<T>(s: seq<T>, key: T -> int)
    requires s != [] && SortedDesc(s, key)
    ensures SortedDesc(s[1..], key)
    ensures forall i :: 0 <= i < |s[1..]| ==> key(s[1..][i]) <= key(s[0])
  {
    var t := s[1..];
    forall i, j | 0 <= i < j < |t| ensures key(t[j]) <= key(t[i]) {
      assert t[i] == s[i + 1] && t[j] == s[j + 1];
    }
    forall i | 0 <= i < |t| ensures key(t[i]) <= key(s[0]) {
      assert t[i] == s[i + 1];
    }
  }

  /** A bound on the keys of `t` and on `key(x)` bounds every key of a permutation of `t` plus `x`. */
  lemma BoundThroughMultiset<T>(r: seq<T>, t: seq<T>, x: T, key: T -> int, bound: int)
    requires multiset(r) == multiset(t) + multiset{x}
    requires forall i :: 0 <= i < |t| ==> key(t[i]) <= bound
    requires key(x) <= bound
    ensures forall i :: 0 <= i < |r| ==> key(r[i]) <= bound
  {
    forall i | 0 <= i < |r| ensures key(r[i]) <= bound {
      assert r[i] in multiset(r);
      if r[i] != x {
        assert r[i] in multiset(t);
        var k :| 0 <= k < |t| && t[k] == r[i];
      }
    }
  }

  /** Inserts `x` into a key-descending sequence after every element whose key is
      at least `key(x)`. */
  function InsertDesc<T>(x: T, s: seq<T>, key: T -> int): (r: seq<T>)
    requires SortedDesc(s, key)
    ensures SortedDesc(r, key)
    ensures multiset(r) == multiset(s) + multiset{x}
  {
    if s == [] then [x]
    else
      TailSortedDesc(s, key);
      assert s == [s[0]] + s[1..];
      if key(s[0]) < key(x) then
        ConsSortedDesc(x, s, key);
        [x] + s
      else
        var rest := InsertDesc(x, s[1..], key);
        BoundThroughMultiset(rest, s[1..], x, key, key(s[0]));
        ConsSortedDesc(s[0], rest, key);
        [s[0]] + rest
  }

  /** An ORDER BY key DESC of `s`: insertion sort, stable among equal keys. */
  function SortDescBy<T>(s: seq<T>, key: T -> int): (r: seq<T>)
    ensures SortedDesc(r, key)
    ensures multiset(r) == multiset(s)
  {
    if s == [] then []
    else
      assert s == s[..|s| - 1] + [s[|s| - 1]];
      InsertDesc(s[|s| - 1], SortDescBy(s[..|s| - 1], key), key)
  }

  lemma {:induction false} DistinctCountsAtMostOne<T>(s: seq<T>, x: T)
    requires Distinct(s)
    ensures multiset(s)[x] <= 1
  {
    if s != [] {
      var init, last := s[..|s| - 1], s[|s| - 1];
      assert s == init + [last];
      assert Distinct(init);
      DistinctCountsAtMostOne(init, x);
      if last == x {
        assert x !in init;
        assert multiset(init)[x] == 0;
      }
    }
  }

  lemma RepeatCountsTwice<T>(t: seq<T>, i: int, j: int)
    requires 0 <= i < j < |t| && t[i] == t[j]
    ensures multiset(t)[t[i]] >= 2
  {
    assert t == t[..j] + t[j..];
    assert t[i] in t[..j];
    assert t[j] == t[j..][0];
    assert multiset(t) == multiset(t[..j]) + multiset(t[j..]);
  }

  /** A permutation of a sequence without repetitions has none either. */
  lemma PermutationKeepsDistinct<T>(s: seq<T>, t: seq<T>)
    requires Distinct(s) && multiset(t) == multiset(s)
    ensures Distinct(t)
  {
    forall i, j | 0 <= i < j < |t| ensures t[i] != t[j] {
      if t[i] == t[j] {
        RepeatCountsTwice(t, i, j);
        DistinctCountsAtMostOne(s, t[i]);
      }
    }
  }

  /** What both listing queries rely on: selecting then ordering a scan without
      repetitions gives exactly the selected records, once each, key-descending. */
  lemma SelectThenOrder<T>(rows: seq<T>, p: T -> bool, key: T -> int)
    requires Distinct(rows)
    ensures var r := SortDescBy(Filter(rows, p), key);
      && SortedDesc(r, key)
      && Distinct(r)
      && (forall i :: 0 <= i < |r| ==> r[i] in rows && p(r[i]))
      && (forall i :: 0 <= i < |rows| && p(rows[i]) ==> rows[i] in r)
  {
    var f := Filter(rows, p);
    var r := SortDescBy(f, key);
    PermutationKeepsDistinct(f, r);
    forall i | 0 <= i < |r| ensures r[i] in f {
      assert r[i] in multiset(r);
    }
    forall i | 0 <= i < |rows| && p(rows[i]) ensures rows[i] in r {
      assert rows[i] in multiset(f);
    }
  }
}
