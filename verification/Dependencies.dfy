/** The dependency list of a submission: a set of queue item IDs, held in one ascending order. */
module Dependencies {
  import opened FileSystem
  import opened Canonical

  const SIGNED_64_MAX: int := 9223372036854775807

  predicate ItemId(v: Value) {
    v.Int? && 1 <= v.i <= SIGNED_64_MAX
  }

  predicate Distinct<T(==)>(s: seq<T>) {
    forall i, j | 0 <= i < j < |s| :: s[i] != s[j]
  }

  predicate Admissible(values: seq<Value>) {
    (forall i | 0 <= i < |values| :: ItemId(values[i])) && Distinct(values)
  }

  predicate Ascending(s: seq<int>) {
    forall i, j | 0 <= i < j < |s| :: s[i] < s[j]
  }

  function Insert(x: int, s: seq<int>): seq<int> {
    if s == [] || x <= s[0] then [x] + s else [s[0]] + Insert(x, s[1..])
  }

  /** `sorted`. */
  function Sort(s: seq<int>): seq<int> {
    if s == [] then [] else Insert(s[0], Sort(s[1..]))
  }

  function Ids(values: seq<Value>): seq<int> {
    seq(|values|, i requires 0 <= i < |values| => if values[i].Int? then values[i].i else 0)
  }

  /** What the compiler keeps of a dependency list. */
  function Copied(values: seq<Value>): Option<seq<int>> {
    if Admissible(values) then Some(Sort(Ids(values))) else None
  }

  function AsValues(s: seq<int>): seq<Value> {
    seq(|s|, i requires 0 <= i < |s| => Int(s[i]))
  }

  lemma {:induction false} InsertKeepsMembers(x: int, s: seq<int>)
    ensures |Insert(x, s)| == |s| + 1 && forall y :: y in Insert(x, s) <==> y == x || y in s
  {
    if s != [] && x > s[0] {
      InsertKeepsMembers(x, s[1..]);
      assert s == [s[0]] + s[1..];
    }
  }

  lemma {:induction false} InsertKeepsOrder(x: int, s: seq<int>)
    requires Ascending(s) && x !in s
    ensures Ascending(Insert(x, s))
  {
    if s != [] && x > s[0] {
      InsertKeepsOrder(x, s[1..]);
      InsertKeepsMembers(x, s[1..]);
      var t := Insert(x, s[1..]);
      forall j | 0 <= j < |t| ensures s[0] < t[j] {
        assert t[j] in t;
      }
    }
  }

  lemma {:induction false} SortIsOrdered(s: seq<int>)
    requires Distinct(s)
    ensures Ascending(Sort(s)) && |Sort(s)| == |s|
    ensures forall x :: x in Sort(s) <==> x in s
  {
    if s != [] {
      var rest := s[1..];
      SortIsOrdered(rest);
      assert s == [s[0]] + rest && s[0] !in rest;
      InsertKeepsMembers(s[0], Sort(rest));
      InsertKeepsOrder(s[0], Sort(rest));
    }
  }

  lemma CopiedIsOrdered(values: seq<Value>)
    requires Admissible(values)
    ensures var s := Copied(values).value;
      Ascending(s) && |s| == |values| && forall x :: x in s <==> Int(x) in values
  {
    var ids := Ids(values);
    assert forall i | 0 <= i < |values| :: ItemId(values[i]) && values[i] == Int(ids[i]);
    SortIsOrdered(ids);
    forall x ensures x in ids <==> Int(x) in values {
      if Int(x) in values {
        var i :| 0 <= i < |values| && values[i] == Int(x);
        assert ids[i] == x;
      }
    }
  }

  /** An ascending list is determined by its members. */
  lemma {:induction false} AscendingIsDetermined(a: seq<int>, b: seq<int>)
    requires Ascending(a) && Ascending(b) && forall x :: x in a <==> x in b
    ensures a == b
  {
    if a != [] {
      assert a[0] in a;
    }
    if b != [] {
      assert b[0] in b;
    }
    if a != [] && b != [] {
      assert a[0] in b && b[0] in a;
      assert a[0] == b[0];
      forall x ensures x in a[1..] <==> x in b[1..] {
        TailMembers(a, x);
        TailMembers(b, x);
      }
      AscendingIsDetermined(a[1..], b[1..]);
      assert a == [a[0]] + a[1..] && b == [b[0]] + b[1..];
    }
  }

  lemma TailMembers(s: seq<int>, x: int)
    requires s != [] && Ascending(s)
    ensures x in s[1..] <==> x in s && x != s[0]
  {
    assert s == [s[0]] + s[1..];
  }

  lemma {:induction false} DistinctIffOnce(s: seq<Value>)
    ensures Distinct(s) <==> forall v :: multiset(s)[v] <= 1
  {
    if s != [] {
      var rest := s[1..];
      DistinctIffOnce(rest);
      assert s == [s[0]] + rest;
      assert multiset(s) == multiset{s[0]} + multiset(rest);
      assert s[0] in rest <==> s[0] in multiset(rest);
      if Distinct(s) {
        assert s[0] !in rest && Distinct(rest);
      } else if Distinct(rest) {
        assert s[0] in rest;
        assert multiset(s)[s[0]] >= 2;
      } else {
        var v :| multiset(rest)[v] > 1;
        assert multiset(s)[v] > 1;
      }
    }
  }

  lemma AdmissibleUnderPermutation(a: seq<Value>, b: seq<Value>)
    requires multiset(a) == multiset(b)
    ensures Admissible(a) ==> Admissible(b)
  {
    DistinctIffOnce(a);
    DistinctIffOnce(b);
    if Admissible(a) {
      forall i | 0 <= i < |b| ensures ItemId(b[i]) {
        assert b[i] in multiset(b);
        assert b[i] in a;
      }
    }
  }

  /** The order in which dependencies are named does not matter. */
  lemma PermutationsAgree(a: seq<Value>, b: seq<Value>)
    requires multiset(a) == multiset(b)
    ensures Copied(a) == Copied(b)
  {
    AdmissibleUnderPermutation(a, b);
    AdmissibleUnderPermutation(b, a);
    if Admissible(a) {
      CopiedIsOrdered(a);
      CopiedIsOrdered(b);
      var s, t := Copied(a).value, Copied(b).value;
      forall x ensures x in s <==> x in t {
        assert Int(x) in a <==> Int(x) in multiset(a);
        assert Int(x) in b <==> Int(x) in multiset(b);
      }
      AscendingIsDetermined(s, t);
    }
  }

  /** A list that was kept once is kept as it is. */
  lemma CopiedIsIdempotent(values: seq<Value>)
    requires Copied(values).Some?
    ensures Copied(AsValues(Copied(values).value)) == Copied(values)
  {
    var s := Copied(values).value;
    CopiedIsOrdered(values);
    var again := AsValues(s);
    forall i | 0 <= i < |again| ensures ItemId(again[i]) {
      assert s[i] in s;
    }
    assert Admissible(again);
    CopiedIsOrdered(again);
    forall x ensures x in Copied(again).value <==> x in s {
      if x in s {
        var i :| 0 <= i < |s| && s[i] == x;
        assert again[i] == Int(x);
      }
    }
    AscendingIsDetermined(Copied(again).value, s);
  }

  /** `_copy_dependencies`: exactly the lists of distinct positive 64-bit IDs are accepted; what is kept is
      ascending and names the same items. */
  method CopyDependencies(values: seq<Value>) returns (r: Option<seq<int>>)
    ensures r == Copied(values)
    ensures r.Some? <==> && (forall i | 0 <= i < |values| :: values[i].Int? && 1 <= values[i].i < 0x8000_0000_0000_0000)
                         && (forall i, j | 0 <= i < j < |values| :: values[i] != values[j])
    ensures r.Some? ==> Ascending(r.value) && |r.value| == |values| && forall x :: x in r.value <==> Int(x) in values
  {
    var copied: seq<int> := [];
    var seen: set<int> := {};
    for i := 0 to |values|
      invariant |copied| == i && forall k | 0 <= k < i :: ItemId(values[k]) && copied[k] == values[k].i
      invariant forall x :: x in seen <==> x in copied
      invariant Distinct(copied)
    {
      if !ItemId(values[i]) {
        return None;
      }
      if values[i].i in seen {
        assert exists k | 0 <= k < i :: values[k] == values[i];
        return None;
      }
      seen := seen + {values[i].i};
      copied := copied + [values[i].i];
    }
    assert copied == Ids(values);
    CopiedIsOrdered(values);
    r := Some(Sort(copied));
  }
}
