/**
 The search for unresolved placeholders in a parameter tree: a loop over an explicit stack, proved to
 find exactly what a recursive reading of the tree finds.
 */
module Placeholder {
  import opened FileSystem
  import opened Json

  const BINDING: string := "$binding"

  datatype Step = Index(i: nat) | Member(key: string)
  type Place = seq<Step>
  datatype Hit = Hit(place: Place, token: string)

  /** The token pattern: the first placeholder token of a text, if there is one. */
  type Pattern = string -> Option<string>

  function Below(j: Json, place: Place, i: nat): Place
    requires i < |Children(j)|
  {
    place + [if j.JObject? then Member(j.members[i].0) else Index(i)]
  }

  // ---------------------------------------------------------------- the recursive reading

  /** The token `what` stands at `place`: in a text, in a key, or as the reserved key. */
  predicate Stands(p: Pattern, j: Json, place: Place, what: string)
    decreases |place|
  {
    if place == [] then j.JText? && p(j.s) == Some(what)
    else match place[0]
      case Index(i) => j.JArray? && i < |j.items| && Stands(p, j.items[i], place[1..], what)
      case Member(key) =>
        && j.JObject?
        && exists i | 0 <= i < |j.members| :: j.members[i].0 == key &&
             if |place| == 1 && ((key == BINDING && what == BINDING) || p(key) == Some(what)) then true
             else Stands(p, j.members[i].1, place[1..], what)
  }

  predicate HasBinding(j: Json) {
    j.JObject? && exists i | 0 <= i < |j.members| :: j.members[i].0 == BINDING
  }

  /** The last key below `n` that carries a token. */
  function LastKey(p: Pattern, j: Json, place: Place, n: nat): Option<Hit>
    requires j.JObject? && n <= |j.members|
  {
    if n == 0 then None
    else
      var key := j.members[n - 1].0;
      if p(key).Some? then Some(Hit(place + [Member(key)], p(key).value)) else LastKey(p, j, place, n - 1)
  }

  function OrElse(a: Option<Hit>, b: Option<Hit>): Option<Hit> {
    if a.Some? then a else b
  }

  /** What the search reports: the reserved key first, then the last offending key, then the first
      report from the children. */
  function First(p: Pattern, j: Json, place: Place): Option<Hit>
    decreases j, |Children(j)| + 1
  {
    if j.JText? then
      if p(j.s).Some? then Some(Hit(place, p(j.s).value)) else None
    else if HasBinding(j) then Some(Hit(place + [Member(BINDING)], BINDING))
    else if j.JObject? && LastKey(p, j, place, |j.members|).Some? then LastKey(p, j, place, |j.members|)
    else FirstFrom(p, j, place, 0)
  }

  function FirstFrom(p: Pattern, j: Json, place: Place, i: nat): Option<Hit>
    requires i <= |Children(j)|
    decreases j, |Children(j)| - i
  {
    if i == |Children(j)| then None
    else
      OrElse(First(p, Children(j)[i], Below(j, place, i)), FirstFrom(p, j, place, i + 1))
  }

  // ---------------------------------------------------------------- the stack

  type Pending = seq<(Json, Place)>

  /** What the loop will report from a stack, its top being the last element. */
  function Search(p: Pattern, pending: Pending): Option<Hit> {
    if pending == [] then None
    else
      var top := pending[|pending| - 1];
      OrElse(First(p, top.0, top.1), Search(p, pending[..|pending| - 1]))
  }

  function Weight(j: Json): nat
    decreases j, |Children(j)| + 1
  {
    1 + WeightFrom(j, 0)
  }

  function WeightFrom(j: Json, i: nat): nat
    requires i <= |Children(j)|
    decreases j, |Children(j)| - i
  {
    if i == |Children(j)| then 0 else Weight(Children(j)[i]) + WeightFrom(j, i + 1)
  }

  function Total(pending: Pending): nat {
    if pending == [] then 0 else Weight(pending[|pending| - 1].0) + Total(pending[..|pending| - 1])
  }

  lemma SearchPush(p: Pattern, pending: Pending, j: Json, place: Place)
    ensures Search(p, pending + [(j, place)]) == OrElse(First(p, j, place), Search(p, pending))
    ensures Total(pending + [(j, place)]) == Total(pending) + Weight(j)
  {
    assert (pending + [(j, place)])[..|pending|] == pending;
  }

  /** The loop over the members of an object, or the items of an array, from the last to the first.  It ends
      early at a key that carries a token; otherwise pushing the children leaves the search where it was. */
  method Expand(p: Pattern, rest: Pending, current: Json, place: Place) returns (hit: Option<Hit>, pending: Pending)
    requires (current.JObject? || current.JArray?) && !HasBinding(current)
    ensures hit.Some? ==> hit == First(p, current, place)
    ensures hit.None? ==> Search(p, pending) == OrElse(First(p, current, place), Search(p, rest))
    ensures hit.None? ==> Total(pending) < Total(rest) + Weight(current)
  {
    pending := rest;
    var i: nat := |Children(current)|;
    while i > 0
      invariant i <= |Children(current)|
      invariant current.JObject? ==> LastKey(p, current, place, |current.members|) == LastKey(p, current, place, i)
      invariant Search(p, pending) == OrElse(FirstFrom(p, current, place, i), Search(p, rest))
      invariant Total(pending) == Total(rest) + WeightFrom(current, i)
    {
      i := i - 1;
      if current.JObject? && p(current.members[i].0).Some? {
        return Some(Hit(Below(current, place, i), p(current.members[i].0).value)), pending;
      }
      SearchPush(p, pending, Children(current)[i], Below(current, place, i));
      pending := pending + [(Children(current)[i], Below(current, place, i))];
    }
    hit := None;
  }

  /** `_resolved_parameter_placeholder` and `_parameter_placeholder`: the explicit stack reports what the
      recursive reading reports. */
  method FindPlaceholder(p: Pattern, value: Json, place: Place) returns (r: Option<Hit>)
    ensures r == First(p, value, place)
  {
    var pending: Pending := [(value, place)];
    SearchPush(p, [], value, place);
    while pending != []
      invariant Search(p, pending) == First(p, value, place)
      decreases Total(pending)
    {
      var (current, at) := pending[|pending| - 1];
      var rest := pending[..|pending| - 1];
      assert pending == rest + [(current, at)];
      SearchPush(p, rest, current, at);
      if current.JText? {
        if p(current.s).Some? {
          return Some(Hit(at, p(current.s).value));
        }
        pending := rest;
      } else if HasBinding(current) {
        return Some(Hit(at + [Member(BINDING)], BINDING));
      } else if current.JObject? || current.JArray? {
        var hit, more := Expand(p, rest, current, at);
        if hit.Some? {
          return hit;
        }
        pending := more;
      } else {
        assert FirstFrom(p, current, at, 0) == None;
        pending := rest;
      }
    }
    r := None;
  }

  // ---------------------------------------------------------------- what a report means

  ghost predicate Reports(p: Pattern, j: Json, place: Place, r: Option<Hit>) {
    r.Some? ==> place <= r.value.place && Stands(p, j, r.value.place[|place|..], r.value.token)
  }

  lemma {:induction false} LastKeyStands(p: Pattern, j: Json, place: Place, n: nat)
    requires j.JObject? && n <= |j.members|
    ensures Reports(p, j, place, LastKey(p, j, place, n))
    ensures LastKey(p, j, place, n).None? ==> forall i | 0 <= i < n :: p(j.members[i].0).None?
  {
    if n > 0 {
      var key := j.members[n - 1].0;
      assert (place + [Member(key)])[|place|..] == [Member(key)];
      LastKeyStands(p, j, place, n - 1);
    }
  }

  /** A token in a child stands below the child's place. */
  lemma StandsBelow(p: Pattern, j: Json, place: Place, i: nat, r: Option<Hit>)
    requires i < |Children(j)| && Reports(p, Children(j)[i], Below(j, place, i), r)
    ensures Reports(p, j, place, r)
  {
    if r.Some? {
      var found := r.value.place[|place|..];
      assert found[1..] == r.value.place[|place| + 1..];
      assert found[0] == Below(j, place, i)[|place|];
    }
  }

  /** Every report is true: the token stands where it is said to. */
  lemma {:induction false} ReportIsReal(p: Pattern, j: Json, place: Place)
    ensures Reports(p, j, place, First(p, j, place))
    decreases j, |Children(j)| + 1
  {
    if j.JText? {
      assert place[|place|..] == [];
    } else if HasBinding(j) {
      assert (place + [Member(BINDING)])[|place|..] == [Member(BINDING)];
    } else {
      if j.JObject? {
        LastKeyStands(p, j, place, |j.members|);
      }
      ReportFromIsReal(p, j, place, 0);
    }
  }

  lemma {:induction false} ReportFromIsReal(p: Pattern, j: Json, place: Place, i: nat)
    requires i <= |Children(j)|
    ensures Reports(p, j, place, FirstFrom(p, j, place, i))
    decreases j, |Children(j)| - i
  {
    if i < |Children(j)| {
      ReportIsReal(p, Children(j)[i], Below(j, place, i));
      StandsBelow(p, j, place, i, First(p, Children(j)[i], Below(j, place, i)));
      ReportFromIsReal(p, j, place, i + 1);
    }
  }

  lemma {:induction false} SilentFrom(p: Pattern, j: Json, place: Place, i: nat, k: nat)
    requires i <= k < |Children(j)| && FirstFrom(p, j, place, i).None?
    ensures First(p, Children(j)[k], Below(j, place, k)).None?
    decreases |Children(j)| - i
  {
    if i < k {
      SilentFrom(p, j, place, i + 1, k);
    }
  }

  /** ... and no report means that no token stands anywhere. */
  lemma {:induction false} SilenceIsReal(p: Pattern, j: Json, place: Place, at: Place, what: string)
    requires First(p, j, place).None?
    ensures !Stands(p, j, at, what)
    decreases |at|
  {
    if at != [] && at[0].Index? && j.JArray? && at[0].i < |j.items| {
      SilentFrom(p, j, place, 0, at[0].i);
      SilenceIsReal(p, j.items[at[0].i], Below(j, place, at[0].i), at[1..], what);
    } else if at != [] && at[0].Member? && j.JObject? {
      LastKeyStands(p, j, place, |j.members|);
      forall i | 0 <= i < |j.members| ensures !Stands(p, j.members[i].1, at[1..], what) {
        SilentFrom(p, j, place, 0, i);
        SilenceIsReal(p, j.members[i].1, Below(j, place, i), at[1..], what);
      }
    }
  }

  /** The search returns nothing exactly when the tree holds no reserved key, no token-bearing key and no
      token-bearing text at any depth; otherwise it names a real occurrence. */
  method SearchParameters(p: Pattern, value: Json) returns (r: Option<Hit>)
    ensures r.None? <==> forall at, what :: !Stands(p, value, at, what)
    ensures r.Some? ==> Stands(p, value, r.value.place, r.value.token)
  {
    r := FindPlaceholder(p, value, []);
    if r.None? {
      forall at, what ensures !Stands(p, value, at, what) {
        SilenceIsReal(p, value, [], at, what);
      }
    } else {
      ReportIsReal(p, value, []);
      assert r.value.place[0..] == r.value.place;
      assert Stands(p, value, r.value.place, r.value.token);
    }
  }
}
