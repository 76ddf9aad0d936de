/**
 The migration mapping: rows of a legacy queue become rows of the schema-5 candidate, and the legacy
 columns of the candidate, read back in key order, are the legacy view again.
 */
module LegacyImport {
  import opened FileSystem
  import opened SqlRows

  datatype Layout = Layout(columns: seq<Text>, defaults: map<Text, Sql>, id: Text, commit: Text, state: Text, active: set<Sql>)

  datatype LegacyEvent = LegacyEvent(id: int, createdAt: Text, actor: Text, kind: Text, item: Option<int>, payload: Text)

  datatype Source = Source(
    items: seq<Row>, dependencies: seq<(int, int)>, events: seq<LegacyEvent>, allowlist: seq<Row>, reservations: seq<Row>,
    sequences: map<Text, int>)

  datatype Scope = Host | Project

  datatype Item = Item(revision: nat, legacy: Row, leaseHeld: bool)

  datatype Event = Event(legacy: LegacyEvent, scope: Scope, project: Option<nat>)

  // ---------------------------------------------------------------- the legacy view

  /** A row of any legacy version: columns it lacks have a default owned by the version. */
  predicate LegacyRow(l: Layout, r: Row) {
    && (forall i | 0 <= i < |l.columns| :: l.columns[i] in r || l.columns[i] in l.defaults)
    && l.id in l.columns && l.commit in l.columns && l.state in l.columns
    && l.id in r && r[l.id].Integer? && l.commit in r && r[l.commit].SqlText? && l.state in r
  }

  predicate LegacyRows(l: Layout, rows: seq<Row>) {
    forall i | 0 <= i < |rows| :: LegacyRow(l, rows[i])
  }

  method FillDefaults(l: Layout, r: Row) returns (out: Row)
    requires LegacyRow(l, r)
    ensures out == ViewRow(l, r)
  {
    var row := r;
    for k := 0 to |l.columns|
      invariant forall c :: c in row <==> c in r || c in l.columns[..k]
      invariant forall c <- row :: if c in r then row[c] == r[c] else c in l.defaults && row[c] == l.defaults[c]
    {
      if l.columns[k] !in row {
        row := row[l.columns[k] := l.defaults[l.columns[k]]];
      }
    }
    assert l.columns[..|l.columns|] == l.columns;
    out := map c | c in l.columns :: row[c];
  }

  /** `normalized_queue_items`: a default fills a column only where the source has none. */
  method NormalizedQueueItems(l: Layout, rows: seq<Row>) returns (out: seq<Row>)
    requires LegacyRows(l, rows)
    ensures out == View(l, rows)
  {
    out := [];
    for i := 0 to |rows|
      invariant out == View(l, rows[..i])
    {
      var row := FillDefaults(l, rows[i]);
      ViewSnoc(l, rows[..i], rows[i]);
      out := out + [row];
      assert rows[..i + 1] == rows[..i] + [rows[i]];
    }
    assert rows[..|rows|] == rows;
  }

  function ViewRow(l: Layout, r: Row): Row
    requires LegacyRow(l, r)
  {
    map c | c in l.columns :: if c in r then r[c] else l.defaults[c]
  }

  function View(l: Layout, rows: seq<Row>): seq<Row>
    requires LegacyRows(l, rows)
  {
    seq(|rows|, i requires 0 <= i < |rows| => ViewRow(l, rows[i]))
  }

  lemma ViewSnoc(l: Layout, rows: seq<Row>, r: Row)
    requires LegacyRows(l, rows) && LegacyRow(l, r)
    ensures LegacyRows(l, rows + [r]) && View(l, rows + [r]) == View(l, rows) + [ViewRow(l, r)]
  {}

  lemma ViewKeepsKeys(l: Layout, rows: seq<Row>)
    requires LegacyRows(l, rows)
    ensures LegacyRows(l, View(l, rows)) && |View(l, rows)| == |rows|
    ensures forall i | 0 <= i < |rows| :: View(l, rows)[i] == ViewRow(l, rows[i])
    ensures forall i | 0 <= i < |rows| :: IdOf(l, View(l, rows)[i]) == IdOf(l, rows[i]) && View(l, rows)[i][l.commit] == rows[i][l.commit]
  {}

  // ---------------------------------------------------------------- commits and revisions

  function CommitsOf(l: Layout, rows: seq<Row>): seq<Text>
    requires LegacyRows(l, rows)
  {
    seq(|rows|, i requires 0 <= i < |rows| => rows[i][l.commit].t)
  }

  /** The distinct members of a sequence, in the order of their first appearance. */
  function Appearances(s: seq<Text>): seq<Text> {
    if s == [] then []
    else
      var before := Appearances(s[..|s| - 1]);
      if s[|s| - 1] in before then before else before + [s[|s| - 1]]
  }

  /** The commit collection of `_verify_git_cards`. */
  method CollectCommits(l: Layout, rows: seq<Row>) returns (commits: seq<Text>)
    requires LegacyRows(l, rows)
    ensures commits == Appearances(CommitsOf(l, rows))
  {
    commits := [];
    var verified: set<Text> := {};
    ghost var all := CommitsOf(l, rows);
    for i := 0 to |rows|
      invariant commits == Appearances(all[..i]) && (forall c :: c in verified <==> c in commits)
    {
      var commit := rows[i][l.commit].t;
      if commit !in verified {
        verified := verified + {commit};
        commits := commits + [commit];
      }
      assert all[..i + 1][..i] == all[..i];
    }
    assert all[..|rows|] == all;
  }

  /** `commits[j]` appears at some place of `s` where the earlier ones have appeared and it has not. */
  ghost predicate FirstAt(s: seq<Text>, commits: seq<Text>, j: nat, k: nat)
    requires j < |commits| && k < |s|
  {
    s[k] == commits[j] && commits[j] !in s[..k] && forall i | 0 <= i < j :: commits[i] in s[..k]
  }

  lemma {:induction false} AppearancesAreDistinct(s: seq<Text>)
    ensures forall c :: c in Appearances(s) <==> c in s
    ensures forall i, j | 0 <= i < j < |Appearances(s)| :: Appearances(s)[i] != Appearances(s)[j]
  {
    if s != [] {
      AppearancesAreDistinct(s[..|s| - 1]);
      assert s == s[..|s| - 1] + [s[|s| - 1]];
    }
  }

  /** Each commit has a place of first appearance, and the commits stand in the order of these places. */
  lemma {:induction false} AppearancesInOrder(s: seq<Text>, j: nat) returns (k: nat)
    requires j < |Appearances(s)|
    ensures k < |s| && FirstAt(s, Appearances(s), j, k)
  {
    var front := s[..|s| - 1];
    AppearancesAreDistinct(front);
    if j < |Appearances(front)| {
      k := AppearancesInOrder(front, j);
      assert s[..k] == front[..k];
    } else {
      k := |s| - 1;
    }
  }

  // ---------------------------------------------------------------- keyed tables

  /** A table in the order of its key. */
  ghost predicate Ordered<R(!new)>(less: (R, R) -> bool, t: seq<R>) {
    forall i, j | 0 <= i < j < |t| :: less(t[i], t[j]) && !less(t[j], t[i])
  }

  /** The place of a row: after every row with a smaller key. */
  function Place<R>(less: (R, R) -> bool, t: seq<R>, r: R): (p: nat)
    ensures p <= |t|
  {
    if t == [] || !less(t[0], r) then 0 else 1 + Place(less, t[1..], r)
  }

  /** INSERT: refused if a row with the key is there. */
  function Insert<R>(less: (R, R) -> bool, t: seq<R>, r: R): Option<seq<R>> {
    var p := Place(less, t, r);
    if p < |t| && !less(r, t[p]) then None else Some(t[..p] + [r] + t[p..])
  }

  ghost predicate StrictOrder<R(!new)>(less: (R, R) -> bool) {
    && (forall a, b :: less(a, b) ==> !less(b, a))
    && (forall a, b, c :: less(a, b) && less(b, c) ==> less(a, c))
  }

  lemma {:induction false} PlaceSplits<R>(less: (R, R) -> bool, t: seq<R>, r: R)
    ensures var p := Place(less, t, r);
      (forall i | 0 <= i < p :: less(t[i], r)) && (p < |t| ==> !less(t[p], r))
  {
    if t != [] && less(t[0], r) {
      PlaceSplits(less, t[1..], r);
      var p := Place(less, t[1..], r);
      forall i | 0 <= i < p + 1 ensures less(t[i], r) {
        assert i > 0 ==> t[i] == t[1..][i - 1];
      }
    }
  }

  /** A keyed table refuses exactly a second row with a key it has, and stays in the order of its key. */
  lemma InsertKeepsOrder<R(!new)>(less: (R, R) -> bool, t: seq<R>, r: R)
    requires Ordered(less, t) && StrictOrder(less)
    ensures Insert(less, t, r).None? <==> exists i | 0 <= i < |t| :: !less(t[i], r) && !less(r, t[i])
    ensures Insert(less, t, r).Some? ==> Ordered(less, Insert(less, t, r).value) && multiset(Insert(less, t, r).value) == multiset(t) + multiset{r}
  {
    var p := Place(less, t, r);
    PlaceSplits(less, t, r);
    if p < |t| && less(r, t[p]) {
      forall i | p < i < |t| ensures less(r, t[i]) {
        assert less(t[p], t[i]);
      }
    }
    if Insert(less, t, r).Some? {
      BetweenIsOrdered(less, t, r, p);
    }
  }

  lemma BetweenIsOrdered<R(!new)>(less: (R, R) -> bool, t: seq<R>, r: R, p: nat)
    requires Ordered(less, t) && StrictOrder(less) && p <= |t|
    requires (forall i | 0 <= i < p :: less(t[i], r)) && (forall i | p <= i < |t| :: less(r, t[i]))
    ensures var u := t[..p] + [r] + t[p..]; Ordered(less, u) && multiset(u) == multiset(t) + multiset{r}
  {
    assert t == t[..p] + t[p..];
    var u := t[..p] + [r] + t[p..];
    forall i, j | 0 <= i < j < |u| ensures less(u[i], u[j]) && !less(u[j], u[i]) {
      var a, b := if i < p then i else i - 1, if j < p then j else j - 1;
      assert i != p ==> u[i] == t[a];
      assert j != p ==> u[j] == t[b];
    }
  }

  lemma {:induction false} PlaceAtTheEnd<R>(less: (R, R) -> bool, t: seq<R>, r: R)
    requires forall i | 0 <= i < |t| :: less(t[i], r)
    ensures Place(less, t, r) == |t|
  {
    if t != [] {
      PlaceAtTheEnd(less, t[1..], r);
    }
  }

  /** Inserting the rows of an ordered source one by one reproduces it, unless one of them fails its CHECK. */
  method CopyTable<R(!new)>(less: (R, R) -> bool, rows: seq<R>, check: R -> bool) returns (t: Option<seq<R>>)
    requires Ordered(less, rows)
    ensures t.Some? <==> forall i | 0 <= i < |rows| :: check(rows[i])
    ensures t.Some? ==> t.value == rows
  {
    var copied: seq<R> := [];
    for i := 0 to |rows|
      invariant copied == rows[..i] && forall k | 0 <= k < i :: check(rows[k])
    {
      if !check(rows[i]) {
        return None;
      }
      PlaceAtTheEnd(less, copied, rows[i]);
      copied := Insert(less, copied, rows[i]).value;
      assert rows[..i + 1] == rows[..i] + [rows[i]];
    }
    assert rows[..|rows|] == rows;
    t := Some(copied);
  }

  // ---------------------------------------------------------------- the mapping

  const PROJECT_ID: nat := 1

  /** The CHECK constraints of the destination that speak of columns the mapping does not look at: the queue
      table's, and those of the two GPU tables; and the item a reservation names. */
  datatype Schema = Schema(item: Item -> bool, allowed: Row -> bool, reservation: Row -> bool, reservedFor: Row -> Option<int>)

  /** The CHECKs of the dependency table; the legacy table has no such constraint. */
  predicate DependencyCheck(d: (int, int)) {
    d.0 > 0 && d.1 > 0 && d.0 != d.1
  }

  /** The CHECKs of the event table. */
  predicate EventCheck(e: Event) {
    && e.legacy.id > 0 && e.legacy.createdAt != [] && e.legacy.actor != [] && e.legacy.kind != [] && e.legacy.payload != []
    && (if e.scope.Host? then e.project.None? && e.legacy.item.None? else e.project.Some?)
  }

  function ItemFor(l: Layout, byCommit: map<Text, nat>, r: Row): Item
    requires l.commit in r && r[l.commit].SqlText? && r[l.commit].t in byCommit && l.state in r
  {
    Item(byCommit[r[l.commit].t], r, r[l.state] in l.active)
  }

  function EventFor(e: LegacyEvent): Event {
    Event(e, if e.item.Some? then Project else Host, if e.item.Some? then Some(PROJECT_ID) else None)
  }

  /** A legacy event the new table can take: the scope rule never stands in the way. */
  predicate Sound(e: LegacyEvent) {
    e.id > 0 && e.createdAt != [] && e.actor != [] && e.kind != [] && e.payload != []
  }

  function IdOf(l: Layout, r: Row): int {
    if l.id in r && r[l.id].Integer? then r[l.id].i else 0
  }

  function PairLess(a: (int, int), b: (int, int)): bool {
    a.0 < b.0 || (a.0 == b.0 && a.1 < b.1)
  }

  /** What the legacy tables are known to be: typed rows, each table in the order of its key. */
  ghost predicate Quiescent(l: Layout, s: Source, allow: (Row, Row) -> bool, reserve: (Row, Row) -> bool) {
    && LegacyRows(l, s.items)
    && (forall i, j | 0 <= i < j < |s.items| :: IdOf(l, s.items[i]) < IdOf(l, s.items[j]))
    && (forall i, j | 0 <= i < j < |s.events| :: s.events[i].id < s.events[j].id)
    && Ordered(PairLess, s.dependencies) && Ordered(allow, s.allowlist) && Ordered(reserve, s.reservations)
  }

  ghost predicate Numbered(commits: seq<Text>, byCommit: map<Text, nat>) {
    && (forall c :: c in byCommit <==> c in commits)
    && (forall k | 0 <= k < |commits| :: commits[k] in byCommit && byCommit[commits[k]] == k + 1)
  }

  function Revisions(commits: seq<Text>): seq<Option<Text>> {
    if commits == [] then [None] else seq(|commits|, k requires 0 <= k < |commits| => Some(commits[k]))
  }

  function CountScoped(events: seq<Event>, scope: Scope): nat {
    if events == [] then 0
    else CountScoped(events[..|events| - 1], scope) + if events[|events| - 1].scope == scope then 1 else 0
  }

  function CountWithItem(events: seq<LegacyEvent>): nat {
    if events == [] then 0
    else CountWithItem(events[..|events| - 1]) + if events[|events| - 1].item.Some? then 1 else 0
  }

  lemma {:induction false} ScopesAreCounted(events: seq<Event>, legacy: seq<LegacyEvent>)
    requires |events| == |legacy| && forall i | 0 <= i < |events| :: events[i] == EventFor(legacy[i])
    ensures CountScoped(events, Project) == CountWithItem(legacy)
    ensures CountScoped(events, Host) + CountWithItem(legacy) == |legacy|
  {
    if events != [] {
      ScopesAreCounted(events[..|events| - 1], legacy[..|legacy| - 1]);
    }
  }

  class Candidate {
    var revisions: seq<Option<Text>>
    var items: seq<Item>
    var dependencies: seq<(int, int)>
    var events: seq<Event>
    var allowlist: seq<Row>
    var reservations: seq<Row>
    var sequences: map<Text, int>

    constructor ()
      ensures items == [] && events == [] && revisions == []
    {
      revisions, items, dependencies, events := [], [], [], [];
      allowlist, reservations, sequences := [], [], map[];
    }

    /** `_insert_project_and_revisions`: one revision a commit, numbered in the order of the commits. */
    method InsertProjectAndRevisions(commits: seq<Text>) returns (byCommit: map<Text, nat>)
      requires revisions == []
      requires forall i, j | 0 <= i < j < |commits| :: commits[i] != commits[j]
      modifies this`revisions
      ensures revisions == Revisions(commits) && Numbered(commits, byCommit)
    {
      byCommit := map[];
      if commits == [] {
        revisions := [None];
        return;
      }
      for k := 0 to |commits|
        invariant |revisions| == k && forall i | 0 <= i < k :: revisions[i] == Some(commits[i])
        invariant forall c :: c in byCommit <==> c in commits[..k]
        invariant forall i | 0 <= i < k :: commits[i] in byCommit && byCommit[commits[i]] == i + 1
      {
        revisions := revisions + [Some(commits[k])];
        byCommit := byCommit[commits[k] := k + 1];
      }
    }

    /** `_insert_queue_rows`. */
    method InsertQueueRows(l: Layout, rows: seq<Row>, byCommit: map<Text, nat>, check: Item -> bool) returns (ok: bool)
      requires LegacyRows(l, rows) && items == []
      requires forall i | 0 <= i < |rows| :: rows[i][l.commit].t in byCommit
      requires forall i, j | 0 <= i < j < |rows| :: IdOf(l, rows[i]) < IdOf(l, rows[j])
      modifies this`items
      ensures ok <==> forall i | 0 <= i < |rows| :: check(ItemFor(l, byCommit, rows[i]))
      ensures ok ==> |items| == |rows| && forall i | 0 <= i < |rows| :: items[i] == ItemFor(l, byCommit, rows[i])
    {
      var less := (a: Item, b: Item) => IdOf(l, a.legacy) < IdOf(l, b.legacy);
      for k := 0 to |rows|
        invariant |items| == k && forall i | 0 <= i < k :: items[i] == ItemFor(l, byCommit, rows[i])
        invariant forall i | 0 <= i < k :: check(ItemFor(l, byCommit, rows[i]))
      {
        var item := ItemFor(l, byCommit, rows[k]);
        if !check(item) {
          return false;
        }
        PlaceAtTheEnd(less, items, item);
        items := Insert(less, items, item).value;
      }
      ok := true;
    }

    /** `_insert_events`: the scope is decided by the presence of an item. */
    method InsertEvents(legacy: seq<LegacyEvent>) returns (ok: bool)
      requires events == [] && forall i, j | 0 <= i < j < |legacy| :: legacy[i].id < legacy[j].id
      modifies this`events
      ensures ok <==> forall i | 0 <= i < |legacy| :: Sound(legacy[i])
      ensures ok ==> |events| == |legacy| && forall i | 0 <= i < |legacy| :: events[i] == EventFor(legacy[i])
    {
      var less := (a: Event, b: Event) => a.legacy.id < b.legacy.id;
      for k := 0 to |legacy|
        invariant |events| == k && forall i | 0 <= i < k :: events[i] == EventFor(legacy[i])
        invariant forall i | 0 <= i < k :: Sound(legacy[i])
      {
        if !EventCheck(EventFor(legacy[k])) {
          return false;
        }
        PlaceAtTheEnd(less, events, EventFor(legacy[k]));
        events := Insert(less, events, EventFor(legacy[k])).value;
      }
      ok := true;
    }

    predicate HasItem(l: Layout, id: int)
      reads this`items
    {
      exists i | 0 <= i < |items| :: IdOf(l, items[i].legacy) == id
    }

    /** `PRAGMA foreign_key_check`, for the keys into the queue table. */
    predicate ForeignKeysHold(l: Layout, c: Schema)
      reads this`items, this`dependencies, this`events, this`reservations
    {
      && (forall i | 0 <= i < |dependencies| :: HasItem(l, dependencies[i].0) && HasItem(l, dependencies[i].1))
      && (forall i | 0 <= i < |events| :: events[i].legacy.item.Some? ==> HasItem(l, events[i].legacy.item.value))
      && (forall i | 0 <= i < |reservations| :: c.reservedFor(reservations[i]).Some? ==> HasItem(l, c.reservedFor(reservations[i]).value))
    }

    /** `_destination_projection`: the legacy columns of the candidate. */
    function Projection(l: Layout): Source
      reads this
    {
      Source(seq(|items|, i requires 0 <= i < |items| reads this => items[i].legacy), dependencies,
             seq(|events|, i requires 0 <= i < |events| reads this => events[i].legacy), allowlist, reservations, sequences)
    }

    /** `_verify_destination`: integrity, field-by-field comparison, scopes and revisions. */
    method VerifyDestination(l: Layout, s: Source, c: Schema, commits: seq<Text>) returns (ok: bool)
      requires LegacyRows(l, s.items)
      ensures ok <==>
                && ForeignKeysHold(l, c) && Projection(l) == s.(items := View(l, s.items))
                && CountScoped(events, Project) == CountWithItem(s.events)
                && CountScoped(events, Host) + CountWithItem(s.events) == |s.events|
                && revisions == Revisions(commits)
    {
      var rows := NormalizedQueueItems(l, s.items);
      ok := && ForeignKeysHold(l, c) && Projection(l) == s.(items := rows)
            && CountScoped(events, Project) == CountWithItem(s.events)
            && CountScoped(events, Host) + CountWithItem(s.events) == |s.events|
            && revisions == Revisions(commits);
    }

    /** The other tables, row by row, and the high-water marks. */
    method InsertOtherTables(s: Source, c: Schema, allow: (Row, Row) -> bool, reserve: (Row, Row) -> bool) returns (ok: bool)
      requires Ordered(PairLess, s.dependencies) && Ordered(allow, s.allowlist) && Ordered(reserve, s.reservations)
      modifies this`dependencies, this`allowlist, this`reservations, this`sequences
      ensures ok <==> OthersPass(s, c)
      ensures ok ==> dependencies == s.dependencies && allowlist == s.allowlist && reservations == s.reservations && sequences == s.sequences
    {
      var d := CopyTable(PairLess, s.dependencies, DependencyCheck);
      var a := CopyTable(allow, s.allowlist, c.allowed);
      var r := CopyTable(reserve, s.reservations, c.reservation);
      if d.None? || a.None? || r.None? {
        return false;
      }
      dependencies, allowlist, reservations, sequences := d.value, a.value, r.value, s.sequences;
      ok := true;
    }

    /** Every item carries the legacy view of its row, refers to the one revision of its own commit, and holds
        the lease exactly if it is active; every event is scoped by the presence of an item. */
    ghost predicate Faithful(l: Layout, s: Source)
      requires LegacyRows(l, s.items)
      reads this
    {
      && revisions == Revisions(Appearances(CommitsOf(l, s.items)))
      && |items| == |s.items| && (forall i | 0 <= i < |items| :: Carries(l, revisions, s.items[i], items[i]))
      && |events| == |s.events| && (forall i | 0 <= i < |events| :: events[i] == EventFor(s.events[i]))
    }

    /** Revisions and queue rows. */
    method InsertItems(l: Layout, s: Source, check: Item -> bool) returns (ok: bool, byCommit: map<Text, nat>)
      requires LegacyRows(l, s.items) && items == [] && revisions == []
      requires forall i, j | 0 <= i < j < |s.items| :: IdOf(l, s.items[i]) < IdOf(l, s.items[j])
      modifies this`revisions, this`items
      ensures Numbered(Appearances(CommitsOf(l, s.items)), byCommit) && ItemsNumbered(l, s.items, byCommit)
      ensures ok <==> forall i | 0 <= i < |s.items| :: check(ItemFor(l, byCommit, ViewRow(l, s.items[i])))
      ensures revisions == Revisions(Appearances(CommitsOf(l, s.items)))
      ensures ok ==> |items| == |s.items| && forall i | 0 <= i < |items| :: Carries(l, revisions, s.items[i], items[i])
    {
      var rows := NormalizedQueueItems(l, s.items);
      var commits := CollectCommits(l, s.items);
      AppearancesAreDistinct(CommitsOf(l, s.items));
      byCommit := InsertProjectAndRevisions(commits);
      NumberingCovers(l, s.items, byCommit);
      ViewKeepsKeys(l, s.items);
      ok := InsertQueueRows(l, rows, byCommit, check);
    }

    /** `_build_candidate`: the import of a quiescent source succeeds exactly when the rows of every mapped table
        meet the CHECKs of the new schema and their keys refer to items; the candidate then projects back to the
        legacy view.  The final comparison finds nothing to object to but the keys. */
    method BuildCandidate(l: Layout, s: Source, c: Schema, allow: (Row, Row) -> bool, reserve: (Row, Row) -> bool)
      returns (ok: bool, byCommit: map<Text, nat>)
      requires Quiescent(l, s, allow, reserve) && items == [] && events == [] && revisions == []
      modifies this
      ensures Numbered(Appearances(CommitsOf(l, s.items)), byCommit) && ItemsNumbered(l, s.items, byCommit)
      ensures ok <==>
                && (forall i | 0 <= i < |s.items| :: c.item(ItemFor(l, byCommit, ViewRow(l, s.items[i]))))
                && OthersPass(s, c) && (forall i | 0 <= i < |s.events| :: Sound(s.events[i])) && KeysHold(l, s, c)
      ensures ok ==> Faithful(l, s) && Projection(l) == s.(items := View(l, s.items))
    {
      ok, byCommit := InsertItems(l, s, c.item);
      if !ok {
        return;
      }
      ok := InsertOtherTables(s, c, allow, reserve);
      if !ok {
        return;
      }
      ok := InsertEvents(s.events);
      if !ok {
        return;
      }
      ScopesAreCounted(events, s.events);
      ProjectionOf(l, s);
      ForeignKeysCarryOver(l, s, c);
      ok := VerifyDestination(l, s, c, Appearances(CommitsOf(l, s.items)));
    }

    lemma ProjectionOf(l: Layout, s: Source)
      requires LegacyRows(l, s.items) && Faithful(l, s)
      requires dependencies == s.dependencies && allowlist == s.allowlist && reservations == s.reservations && sequences == s.sequences
      ensures Projection(l) == s.(items := View(l, s.items))
    {
      assert Projection(l).items == View(l, s.items);
      assert Projection(l).events == s.events;
    }

    lemma ForeignKeysCarryOver(l: Layout, s: Source, c: Schema)
      requires LegacyRows(l, s.items) && Projection(l) == s.(items := View(l, s.items))
      ensures ForeignKeysHold(l, c) <==> KeysHold(l, s, c)
    {
      var p := Projection(l);
      assert |items| == |p.items| && forall i | 0 <= i < |items| :: IdOf(l, items[i].legacy) == IdOf(l, p.items[i]) == IdOf(l, s.items[i]);
      assert |events| == |p.events| && forall i | 0 <= i < |events| :: events[i].legacy == p.events[i] == s.events[i];
      forall id ensures HasItem(l, id) <==> Names(l, s, id) {}
    }
  }

  predicate Carries(l: Layout, revisions: seq<Option<Text>>, r: Row, item: Item)
    requires LegacyRow(l, r)
  {
    && item.legacy == ViewRow(l, r) && (item.leaseHeld <==> r[l.state] in l.active)
    && 0 < item.revision <= |revisions| && revisions[item.revision - 1] == Some(r[l.commit].t)
  }

  predicate Names(l: Layout, s: Source, id: int) {
    exists i | 0 <= i < |s.items| :: IdOf(l, s.items[i]) == id
  }

  predicate KeysHold(l: Layout, s: Source, c: Schema) {
    && (forall i | 0 <= i < |s.dependencies| :: Names(l, s, s.dependencies[i].0) && Names(l, s, s.dependencies[i].1))
    && (forall i | 0 <= i < |s.events| :: s.events[i].item.Some? ==> Names(l, s, s.events[i].item.value))
    && (forall i | 0 <= i < |s.reservations| :: c.reservedFor(s.reservations[i]).Some? ==> Names(l, s, c.reservedFor(s.reservations[i]).value))
  }

  /** The rows of the remaining tables meet their CHECKs. */
  predicate OthersPass(s: Source, c: Schema) {
    && (forall i | 0 <= i < |s.dependencies| :: DependencyCheck(s.dependencies[i]))
    && (forall i | 0 <= i < |s.allowlist| :: c.allowed(s.allowlist[i]))
    && (forall i | 0 <= i < |s.reservations| :: c.reservation(s.reservations[i]))
  }

  /** A legacy item that depends on itself, which the legacy table admits, cannot be imported, nor can a dependency
      on a number no item has. */
  lemma SelfDependencyIsRefused(s: Source, c: Schema, i: nat)
    requires i < |s.dependencies|
    requires s.dependencies[i].0 == s.dependencies[i].1 || s.dependencies[i].0 <= 0 || s.dependencies[i].1 <= 0
    ensures !OthersPass(s, c)
  {
    assert !DependencyCheck(s.dependencies[i]);
  }

  predicate ItemsNumbered(l: Layout, rows: seq<Row>, byCommit: map<Text, nat>)
    requires LegacyRows(l, rows)
  {
    forall i | 0 <= i < |rows| :: rows[i][l.commit].t in byCommit
  }

  lemma NumberingCovers(l: Layout, rows: seq<Row>, byCommit: map<Text, nat>)
    requires LegacyRows(l, rows) && Numbered(Appearances(CommitsOf(l, rows)), byCommit)
    ensures ItemsNumbered(l, rows, byCommit)
    ensures var revisions := Revisions(Appearances(CommitsOf(l, rows)));
      forall i | 0 <= i < |rows| :: Carries(l, revisions, rows[i], ItemFor(l, byCommit, ViewRow(l, rows[i])))
  {
    var all := CommitsOf(l, rows);
    AppearancesAreDistinct(all);
    var commits := Appearances(all);
    forall i | 0 <= i < |rows|
      ensures rows[i][l.commit].t in byCommit
      ensures Carries(l, Revisions(commits), rows[i], ItemFor(l, byCommit, ViewRow(l, rows[i])))
    {
      assert all[i] in all && all[i] in commits;
      var k :| 0 <= k < |commits| && commits[k] == all[i];
    }
  }
}
