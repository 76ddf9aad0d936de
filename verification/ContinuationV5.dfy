/**
 The schema-5 continuation coordinator: a manual yield is persisted, published and only then signalled;
 after a restart the pending request is rebuilt by parsing the repository's row.
 */
module ContinuationV5 {
  import opened FileSystem
  import opened Utf8
  import T = Transcript
  import R = YieldReceipt
  import opened YieldRequest

  datatype ItemState = Queued | Running | Yielding | Terminating | Finished

  /** `spec`, `label` and `commit` are the immutable admission evidence. */
  datatype Item = Item(
    project: nat, revision: nat, id: nat, segment: nat, experiment: Text, attempt: nat, commit: Text, spec: Text, revisionName: Text,
    preemptible: bool, state: ItemState, requestId: Option<Text>)

  /** What the scheduler prepared for the segment; `paths` stands for its control directory. */
  datatype Prepared = Prepared(
    project: nat, revision: nat, id: nat, segment: nat, experiment: Text, attempt: nat, commit: Text, spec: Text, paths: nat)

  datatype Pending = Pending(
    project: nat, revision: nat, item: nat, segment: nat, run: Text, prior: Text, paths: nat,
    request: Request, source: Bytes, sha256: Text)

  /** What the caller asks for, with the run and the receipt digest read from the runner. */
  datatype Call = Call(id: Text, at: Text, actor: Text, note: Text, run: Text, prior: Text)

  /** How publishing the request file turns out: a crash leaves a part of it behind. */
  datatype Publication = Published | Failed | Crashed(part: Bytes)

  /** What the rest of the world decides for one request, and what others do between its steps. */
  datatype Schedule = Schedule(
    publication: Publication, claimed: bool, delivered: Option<bool>, audited: bool, quarantined: bool,
    afterPersist: seq<Change>, afterPublish: seq<Change>, afterClaim: seq<Change>)

  predicate Undisturbed(plan: Schedule) {
    plan.afterPersist == [] && plan.afterPublish == [] && plan.afterClaim == []
  }

  /** What the scheduler, the operator, the project and other coordinators do to the item meanwhile. */
  datatype Change = Terminate | Finish | Requeue | Relaunch | Ask(request: Request) | Publish(publication: Publication)

  /** `Stale`: the item no longer yields on the request when its signal is claimed. */
  datatype Outcome = Done(pending: Pending) | Refused | Uncertain | Stale | Died

  predicate Matches(p: Prepared, i: Item) {
    && p.project == i.project && p.revision == i.revision && p.id == i.id && p.segment == i.segment
    && p.experiment == i.experiment && p.attempt == i.attempt && p.commit == i.commit && p.spec == i.spec
  }

  predicate Ready(p: Prepared, i: Item) {
    i.state.Running? && i.preemptible && Matches(p, i)
  }

  /** The request is for this running item, its segment and its admission evidence. */
  predicate Fits(q: Request, i: Item) {
    var e := q.continuation.evidence;
    && q.item == i.id && q.segment == i.segment && i.state.Running? && i.preemptible
    && e.spec == i.spec && e.revision == i.revisionName && e.commit == i.commit
  }

  /** The request a call stands for. */
  function RequestOf(p: Repo, i: Item, c: Call): Request {
    var evidence := T.Evidence(i.spec, i.revisionName, i.commit, c.run, c.prior);
    Request(c.id, i.id, i.segment, ManualPreemption, c.at, c.actor, c.note,
            T.Identity(evidence, T.DigestOf(p.rules.hash, p.rules.labels, evidence)))
  }

  /** The pending value a call stands for, from its arguments and the item it found. */
  function PendingOf(p: Repo, i: Item, c: Call, paths: nat): Pending {
    var q := RequestOf(p, i, c);
    Pending(i.project, i.revision, i.id, i.segment, c.run, c.prior, paths, q, Wire(p, q), p.rules.hash(Wire(p, q)))
  }

  /** The pending value recovery puts together from a row it has read. */
  function PendingFrom(i: Item, x: Record, paths: nat): Pending {
    Pending(i.project, i.revision, i.id, i.segment, x.request.continuation.evidence.run, x.request.continuation.evidence.prior, paths,
            x.request, x.source, x.sha256)
  }

  predicate Publishable(file: Option<Bytes>, source: Bytes, publication: Publication) {
    if file.None? then publication.Published? else file == Some(source)
  }

  /** What an attempt to create the file leaves at the path. */
  function Left(source: Bytes, publication: Publication): Option<Bytes> {
    match publication
    case Published => Some(source)
    case Failed => None
    case Crashed(part) => Some(part)
  }

  /** What a call that nobody disturbs comes to, once its request is persisted. */
  function Ending(file: Option<Bytes>, pending: Pending, plan: Schedule): Outcome {
    if !Publishable(file, pending.source, plan.publication) then if plan.publication.Crashed? && file.None? then Died else Uncertain
    else if !plan.claimed || (plan.delivered == Some(true) && plan.audited) then Done(pending)
    else Uncertain
  }

  /** The parts of an item that no transition changes. */
  predicate SameAdmission(i: Item, j: Item) {
    && j.project == i.project && j.revision == i.revision && j.id == i.id && j.experiment == i.experiment && j.attempt == i.attempt
    && j.commit == i.commit && j.spec == i.spec && j.revisionName == i.revisionName && j.preemptible == i.preemptible
  }

  /** No transition leads back from here. */
  predicate Ended(i: Item) {
    i.state.Terminating? || i.state.Finished?
  }

  /** What an item may become: its end is final, and within a segment it does not go back to where a request may
      be made. */
  predicate Follows(i: Item, j: Item) {
    && SameAdmission(i, j) && i.segment <= j.segment && (Ended(i) ==> Ended(j))
    && (i.segment == j.segment && !i.state.Queued? ==> !j.state.Queued? && (!i.state.Running? ==> !j.state.Running?))
  }

  /** The state after a transition by somebody else. */
  function Moved(i: Item, change: Change): Item {
    match change
    case Terminate => if i.state.Running? || i.state.Yielding? then i.(state := Terminating) else i
    case Finish => if i.state.Queued? then i else i.(state := Finished)
    case Requeue => if i.state.Yielding? then i.(state := Queued, requestId := None, segment := i.segment + 1) else i
    case Relaunch => if i.state.Queued? then i.(state := Running) else i
    case _ => i
  }

  class Coordinator {
    const repo: Repo
    const load: Loader                 // `_yield_request_from_row`
    var item: Item
    var rows: map<Text, Row>           // immutable once inserted
    var files: map<nat, Bytes>         // what the request path of each segment holds
    var signals: nat
    ghost var asked: map<int, Text>    // the request of each segment
    ghost var claims: seq<Item>        // the item as it was at each claim of a signal
    var quarantined: bool

    constructor (repo: Repo, item: Item)
      requires Lawful(repo.codec) && item.state.Running? && item.requestId.None?
      ensures Valid() && this.item == item && this.repo == repo && signals == 0 && files == map[] && rows == map[] && claims == []
      ensures load == (row => FromRow(repo, row))
    {
      this.repo, this.item, this.load := repo, item, row => FromRow(repo, row);
      ParsingRestores(repo);
      this.rows, this.files, this.signals, this.quarantined, this.claims, this.asked := map[], map[], 0, false, [], map[];
    }

    /** Every row tells its own request, no segment has two, and one that may still be asked has none; a yielding
        item names the row of its own segment. */
    ghost predicate Valid()
      reads this`item, this`rows, this`asked
    {
      && Lawful(repo.codec) && Restores(repo, load)
      && (forall id <- rows :: Readable(rows[id], id))
      && (forall s <- asked :: s <= item.segment && (s == item.segment ==> !item.state.Queued? && !item.state.Running?))
      && (item.state.Yielding? ==> item.requestId.Some? && Owns(item.requestId.value))
    }

    /** A row tells the request of its own identifier, which is the one of its segment. */
    ghost predicate Readable(row: Row, id: Text)
      reads this`asked
    {
      && load(row).Some?
      && var x := load(row).value;
         x.request.id == id && x.sha256 == repo.rules.hash(x.source) && x.request.segment in asked && asked[x.request.segment] == id
    }

    ghost function SegmentOf(id: Text): int
      reads this`rows
      requires id in rows
    {
      var x := load(rows[id]);
      if x.Some? then x.value.request.segment else -1
    }

    ghost predicate Owns(id: Text)
      reads this`item, this`rows
    {
      && id in rows && load(rows[id]).Some?
      && var x := load(rows[id]).value;
         x.project == item.project && x.revision == item.revision && x.request.item == item.id && x.request.segment == item.segment
    }

    /** What the request path of a segment holds. */
    function FileOf(segment: nat): Option<Bytes>
      reads this`files
    {
      if segment in files then Some(files[segment]) else None
    }

    /** Rows and published files stay as they are. */
    twostate predicate Onward()
      reads this`item, this`rows, this`files
    {
      && Follows(old(item), item)
      && old(rows.Keys) <= rows.Keys && (forall id <- old(rows) :: rows[id] == old(rows)[id])
      && (forall s <- old(files) :: s in files && files[s] == old(files)[s])
    }

    ghost predicate Stores(id: Text, q: Request)
      reads this`rows
    {
      id in rows && load(rows[id]).Some? && load(rows[id]).value.request == q && load(rows[id]).value.source == Wire(repo, q)
    }

    /** `record_yield_request`: the immutable row together with the guarded move from running to yielding; the
        same request with the same bytes is answered with the row that is there. */
    method RecordYieldRequest(request: Request, source: Bytes) returns (r: Option<Record>)
      requires Valid()
      modifies this`item, this`rows, this`asked
      ensures Valid() && SameAdmission(old(item), item) && item.segment == old(item).segment
      ensures old(rows.Keys) <= rows.Keys && forall id <- old(rows) :: rows[id] == old(rows)[id]
      ensures r.None? ==> item == old(item) && rows == old(rows)
      ensures r.Some? ==> r.value.request == request && r.value.source == source && request.id in rows
      ensures r.Some? ==> load(rows[request.id]) == r && r.value.sha256 == repo.rules.hash(source)
      ensures r.Some? && request.id !in old(rows) ==>
                && old(item).state.Running? && item == old(item).(state := Yielding, requestId := Some(request.id))
                && r.value.project == item.project && r.value.revision == item.revision
      ensures r.Some? && request.id in old(rows) ==> item == old(item)
      ensures request.id !in old(rows) ==> (r.Some? <==> Spells(repo, request, source) && Fits(request, old(item)))
    {
      var spelled := CheckWire(repo, request, source);
      if !spelled {
        return None;
      }
      if request.id in rows {
        var existing := load(rows[request.id]);
        return if existing.value.request == request && existing.value.source == source then existing else None;
      }
      if !Fits(request, item) {
        return None;
      }
      Insert(request, source);
      r := load(rows[request.id]);
    }

    /** The row and the move of the item, in one transaction. */
    method Insert(request: Request, source: Bytes)
      requires Valid() && Spells(repo, request, source) && request.id !in rows && Fits(request, item)
      modifies this`item, this`rows, this`asked
      ensures Valid() && item == old(item).(state := Yielding, requestId := Some(request.id))
      ensures rows == old(rows)[request.id := ToRow(repo, request, source, item.project, item.revision)]
      ensures load(rows[request.id]) == Some(Record(request, source, repo.rules.hash(source), item.project, item.revision))
    {
      rows := rows[request.id := ToRow(repo, request, source, item.project, item.revision)];
      asked := asked[request.segment := request.id];
      item := item.(state := Yielding, requestId := Some(request.id));
    }

    /** `_atomic_create_or_verify`: nothing at the path is ever changed, and a normal return means that exactly
        these bytes are there. */
    method CreateOrVerify(segment: nat, source: Bytes, publication: Publication) returns (ok: bool)
      modifies this`files
      ensures forall s <- old(files) :: s in files && files[s] == old(files)[s]
      ensures forall s <- files :: s in old(files) || s == segment
      ensures ok ==> FileOf(segment) == Some(source)
      ensures ok <==> Publishable(old(FileOf(segment)), source, publication)
      ensures old(FileOf(segment)).None? ==> FileOf(segment) == Left(source, publication)
    {
      if segment in files {
        return files[segment] == source;
      }
      match publication
      case Published =>
        files := files[segment := source];
        ok := true;
      case Failed =>
        ok := false;
      case Crashed(part) =>
        files := files[segment := part];
        ok := false;
    }

    /** `request_manual_yield`, with anything done by others between its steps.  The returned value is made of the
        call's own arguments; a signal leaves only after a claim made while the item yielded on this request, with
        the whole request published.  A termination that comes before the claim prevents it. */
    method RequestManualYield(p: Prepared, c: Call, plan: Schedule) returns (r: Outcome)
      requires Valid()
      modifies this
      ensures Valid() && Onward() && (signals == old(signals) || signals == old(signals) + 1)
      ensures signals > old(signals) ==> Claimed(old(claims), c.id, old(item).segment)
      ensures signals > old(signals) ==> FileOf(old(item).segment) == Some(Wire(repo, RequestOf(repo, old(item), c)))
      ensures Terminate in plan.afterPersist + plan.afterPublish ==> signals == old(signals) && claims == old(claims)
      ensures r.Refused? ==> item == old(item) && rows == old(rows) && files == old(files) && signals == old(signals)
      ensures !r.Refused? ==> Stores(c.id, RequestOf(repo, old(item), c))
      ensures !r.Refused? && item.segment == old(item).segment ==>
                Ended(item) || (item.state.Yielding? && Terminate !in plan.afterPersist)
      ensures !r.Refused? && Undisturbed(plan) ==> item.state.Yielding? && item.requestId == Some(c.id) && item.segment == old(item).segment
      ensures !r.Refused? && Undisturbed(plan) && old(FileOf(item.segment)).None? && !plan.publication.Crashed? ==>
                FileOf(old(item).segment) in {None, Some(Wire(repo, RequestOf(repo, old(item), c)))}
      ensures !r.Refused? && Undisturbed(plan) ==> r == Ending(old(FileOf(item.segment)), PendingOf(repo, old(item), c, p.paths), plan)
      ensures r.Done? ==> r.pending == PendingOf(repo, old(item), c, p.paths) && FileOf(old(item).segment) == Some(r.pending.source)
      ensures r.Uncertain? && plan.quarantined ==> quarantined
      ensures r.Refused? <==> !(Ready(p, old(item)) && c.id !in old(rows) && YieldRequest.Valid(repo.rules, RequestOf(repo, old(item), c)))
    {
      var pending := Persist(p, c);
      if pending.None? {
        return Refused;
      }
      r := PublishAndSignal(c.id, pending.value, plan);
    }

    /** One more claim has been made, by an item that yielded on the request. */
    ghost predicate Claimed(before: seq<Item>, id: Text, segment: nat)
      reads this`claims
    {
      && |claims| == |before| + 1 && claims[..|before|] == before
      && var i := claims[|before|]; i.state.Yielding? && i.requestId == Some(id) && i.segment == segment
    }

    /** Publication, then the signal, of a request just persisted. */
    method PublishAndSignal(id: Text, pending: Pending, plan: Schedule) returns (r: Outcome)
      requires Valid() && item.state.Yielding? && item.requestId == Some(id) && pending.segment == item.segment
      modifies this
      ensures Valid() && Onward() && !r.Refused? && (signals == old(signals) || signals == old(signals) + 1)
      ensures signals > old(signals) ==> Claimed(old(claims), id, pending.segment) && FileOf(pending.segment) == Some(pending.source)
      ensures Terminate in plan.afterPersist + plan.afterPublish ==> signals == old(signals) && claims == old(claims)
      ensures Terminate in plan.afterPersist && item.segment == old(item).segment ==> Ended(item)
      ensures Undisturbed(plan) ==> item == old(item) && r == Ending(old(FileOf(item.segment)), pending, plan)
      ensures Undisturbed(plan) && old(FileOf(item.segment)).None? && !plan.publication.Crashed? ==>
                FileOf(pending.segment) in {None, Some(pending.source)}
      ensures r.Done? ==> r.pending == pending && FileOf(pending.segment) == Some(pending.source)
      ensures r.Uncertain? && plan.quarantined ==> quarantined
    {
      Wait(plan.afterPersist);
      r := PublishThenClaim(id, pending, plan);
    }

    method PublishThenClaim(id: Text, pending: Pending, plan: Schedule) returns (r: Outcome)
      requires Valid() && id in rows && SegmentOf(id) == pending.segment
      requires item.segment == pending.segment ==> !item.state.Queued?
      modifies this
      ensures Valid() && Onward() && !r.Refused? && (signals == old(signals) || signals == old(signals) + 1)
      ensures signals > old(signals) ==> Claimed(old(claims), id, pending.segment) && FileOf(pending.segment) == Some(pending.source)
      ensures claims != old(claims) ==> old(item).segment == pending.segment && !old(Ended(item)) && Terminate !in plan.afterPublish
      ensures signals > old(signals) ==> claims != old(claims)
      ensures plan.afterPublish == [] && plan.afterClaim == [] ==> item == old(item)
      ensures plan.afterPublish == [] && plan.afterClaim == [] && old(FileOf(pending.segment)).None? && !plan.publication.Crashed? ==>
                FileOf(pending.segment) in {None, Some(pending.source)}
      ensures plan.afterPublish == [] && old(item).state.Yielding? && old(item).requestId == Some(id) ==>
                r == Ending(old(FileOf(pending.segment)), pending, plan)
      ensures r.Done? ==> r.pending == pending && FileOf(pending.segment) == Some(pending.source)
      ensures r.Uncertain? && plan.quarantined ==> quarantined
    {
      var failure := PublishRequest(pending, plan);
      if failure.Some? {
        return failure.value;
      }
      r := ClaimAndSignal(id, pending, plan);
    }

    /** Publication; if it fails, what the call comes to. */
    method PublishRequest(pending: Pending, plan: Schedule) returns (failure: Option<Outcome>)
      modifies this`files, this`quarantined
      ensures forall s <- old(files) :: s in files && files[s] == old(files)[s]
      ensures old(FileOf(pending.segment)).None? ==> FileOf(pending.segment) == Left(pending.source, plan.publication)
      ensures failure.None? ==> FileOf(pending.segment) == Some(pending.source)
      ensures failure == if Publishable(old(FileOf(pending.segment)), pending.source, plan.publication) then None
                         else if plan.publication.Crashed? && old(FileOf(pending.segment)).None? then Some(Died) else Some(Uncertain)
      ensures quarantined == (old(quarantined) || (failure == Some(Uncertain) && plan.quarantined))
    {
      var absent := pending.segment !in files;
      var published := CreateOrVerify(pending.segment, pending.source, plan.publication);
      if published {
        return None;
      }
      if plan.publication.Crashed? && absent {
        return Some(Died);
      }
      quarantined := quarantined || plan.quarantined;
      failure := Some(Uncertain);
    }

    /** From the published request to the end of the call. */
    method ClaimAndSignal(id: Text, pending: Pending, plan: Schedule) returns (r: Outcome)
      requires Valid() && id in rows && SegmentOf(id) == pending.segment && FileOf(pending.segment) == Some(pending.source)
      requires item.segment == pending.segment ==> !item.state.Queued?
      modifies this
      ensures Valid() && Onward() && !r.Refused? && (signals == old(signals) || signals == old(signals) + 1)
      ensures signals > old(signals) ==> Claimed(old(claims), id, pending.segment)
      ensures claims != old(claims) ==> old(item).segment == pending.segment && !old(Ended(item)) && Terminate !in plan.afterPublish
      ensures signals > old(signals) ==> claims != old(claims)
      ensures plan.afterPublish == [] && plan.afterClaim == [] ==> item == old(item)
      ensures plan.afterPublish == [] && old(item).state.Yielding? && old(item).requestId == Some(id) ==> r == Settled(pending, plan)
      ensures r.Done? ==> r.pending == pending
      ensures r.Uncertain? && plan.quarantined ==> quarantined
    {
      Wait(plan.afterPublish);
      r := SignalOnce(id, pending, plan);
    }

    /** The checks of a call and the transaction that persists its request; the pending value is put together from
        the call and the record that came back. */
    method Persist(p: Prepared, c: Call) returns (pending: Option<Pending>)
      requires Valid()
      modifies this`item, this`rows, this`asked
      ensures Valid() && Onward() && item.segment == old(item).segment
      ensures pending.None? ==> item == old(item) && rows == old(rows)
      ensures pending.None? <==> !(Ready(p, old(item)) && c.id !in old(rows) && YieldRequest.Valid(repo.rules, RequestOf(repo, old(item), c)))
      ensures pending.Some? ==> pending == Some(PendingOf(repo, old(item), c, p.paths)) && Stores(c.id, RequestOf(repo, old(item), c))
      ensures pending.Some? ==> item.state.Yielding? && item.requestId == Some(c.id)
    {
      if !Ready(p, item) {
        return None;
      }
      var request := RequestOf(repo, item, c);
      if !YieldRequest.Valid(repo.rules, request) {
        return None;
      }
      WireSpells(repo, request);
      var record := RecordYieldRequest(request, Wire(repo, request));
      if record.None? {
        return None;
      }
      pending := Some(Pending(item.project, item.revision, item.id, item.segment, c.run, c.prior, p.paths,
                              request, record.value.source, record.value.sha256));
    }

    /** Claim, signal, audit.  The claim is granted only while the item yields on this request. */
    method SignalOnce(id: Text, pending: Pending, plan: Schedule) returns (r: Outcome)
      requires Valid() && id in rows && SegmentOf(id) == pending.segment
      modifies this
      ensures Valid() && Onward() && !r.Refused? && (signals == old(signals) || signals == old(signals) + 1)
      ensures signals > old(signals) ==> claims != old(claims)
      ensures claims != old(claims) <==> old(item).state.Yielding? && old(item).requestId == Some(id) && plan.claimed
      ensures r.Stale? <==> !(old(item).state.Yielding? && old(item).requestId == Some(id))
      ensures !r.Stale? ==> r == Settled(pending, plan) && signals == old(signals) + (if plan.claimed && plan.delivered == Some(true) then 1 else 0)
      ensures claims != old(claims) ==> old(item).state.Yielding? && old(item).segment == pending.segment
      ensures claims != old(claims) ==> Claimed(old(claims), id, pending.segment)
      ensures plan.afterClaim == [] ==> item == old(item)
      ensures r.Done? ==> r.pending == pending
      ensures r.Uncertain? && plan.quarantined ==> quarantined
    {
      if !(item.state.Yielding? && item.requestId == Some(id)) {
        return Stale;
      }
      if !plan.claimed {
        return Done(pending);
      }
      claims := claims + [item];
      r := Deliver(pending, plan);
    }

    /** How a claimed signal ends. */
    function Settled(pending: Pending, plan: Schedule): Outcome {
      if !plan.claimed || (plan.delivered == Some(true) && plan.audited) then Done(pending) else Uncertain
    }

    /** The signal and its audit: what happens to the item between claim and signal makes no difference. */
    method Deliver(pending: Pending, plan: Schedule) returns (r: Outcome)
      requires Valid()
      modifies this`item, this`rows, this`asked, this`files, this`signals, this`quarantined
      ensures Valid() && Onward() && signals == old(signals) + (if plan.delivered == Some(true) then 1 else 0)
      ensures plan.afterClaim == [] ==> item == old(item)
      ensures r == if plan.delivered == Some(true) && plan.audited then Done(pending) else Uncertain
      ensures quarantined == (old(quarantined) || (r.Uncertain? && plan.quarantined))
    {
      Wait(plan.afterClaim);
      if plan.delivered == Some(true) {
        signals := signals + 1;
        if plan.audited {
          return Done(pending);
        }
      }
      quarantined := quarantined || plan.quarantined;
      r := Uncertain;
    }

    /** `recover_pending`: succeeds exactly for a yielding item whose request file is absent or whole; everything
        it returns about the request is parsed from the row. */
    method RecoverPending(p: Prepared, publication: Publication) returns (r: Option<Pending>)
      requires Valid()
      modifies this`files
      ensures Valid() && Onward()
      ensures r.Some? ==> item.state.Yielding? && item.requestId.Some? && item.requestId.value in rows && Matches(p, item)
      ensures r.Some? ==> r.value == PendingFrom(item, load(rows[item.requestId.value]).value, p.paths)
      ensures r.Some? ==> FileOf(item.segment) == Some(r.value.source)
      ensures r.None? ==> !(item.state.Yielding? && Matches(p, item)
                            && Publishable(old(FileOf(item.segment)), load(rows[item.requestId.value]).value.source, publication))
    {
      if !item.state.Yielding? || !Matches(p, item) {
        return None;
      }
      var record := load(rows[item.requestId.value]);
      var request := record.value.request;
      if || request.item != item.id || request.segment != item.segment
         || record.value.project != item.project || record.value.revision != item.revision {
        return None;
      }
      var published := CreateOrVerify(item.segment, record.value.source, publication);
      if !published {
        return None;
      }
      r := Some(PendingFrom(item, record.value, p.paths));
    }

    /** One transition by somebody else. */
    method Suffer(change: Change)
      requires Valid()
      modifies this`item, this`rows, this`asked, this`files
      ensures Valid() && Onward()
      ensures change.Terminate? && !old(item).state.Queued? ==> Ended(item)
    {
      match change
      case Ask(request) =>
        var r := RecordYieldRequest(request, Wire(repo, request));
      case Publish(publication) =>
        if item.state.Yielding? {
          var ok := CreateOrVerify(item.segment, load(rows[item.requestId.value]).value.source, publication);
        }
      case _ =>
        Move(change);
    }

    /** One that changes the item alone. */
    method Move(change: Change)
      requires Valid() && !change.Ask? && !change.Publish?
      modifies this`item
      ensures Valid() && Follows(old(item), item) && item == Moved(old(item), change)
      ensures change.Terminate? && !old(item).state.Queued? ==> Ended(item)
    {
      item := Moved(item, change);
    }

    /** A request, whatever becomes of it; then any number of transitions by others; then a restart.  Recovery
        succeeds only while the item is still yielding, never in a segment that was terminated meanwhile; and in the
        segment of the request what it returns equals in every field the value the call stands for - the one the
        call returned, or would have.  With nothing in between and no torn file it does succeed. */
    method RequestThenRestart(p: Prepared, c: Call, plan: Schedule, meanwhile: seq<Change>, q: Prepared, publication: Publication)
      returns (first: Outcome, again: Option<Pending>)
      requires Valid()
      modifies this
      ensures Valid()
      ensures first.Done? ==> first.pending == PendingOf(repo, old(item), c, p.paths)
      ensures again.Some? ==> item.state.Yielding?
      ensures !first.Refused? && item.segment == old(item).segment && Terminate in plan.afterPersist ==> again.None?
      ensures !first.Refused? && item.segment == old(item).segment && Terminate in meanwhile ==> again.None?
      ensures again.Some? && !first.Refused? && item.segment == old(item).segment ==>
                item.requestId == Some(c.id) && again.value == PendingOf(repo, old(item), c, q.paths)
      ensures again.Some? && first.Done? && item.segment == old(item).segment && q.paths == p.paths ==> again.value == first.pending
      ensures !first.Refused? && Undisturbed(plan) && meanwhile == [] && old(FileOf(item.segment)).None? && !plan.publication.Crashed? ==>
                q == p && publication.Published? ==> again.Some?
    {
      first := RequestManualYield(p, c, plan);
      again := Restart(meanwhile, q, publication);
    }

    /** What others do, then recovery. */
    method Restart(meanwhile: seq<Change>, q: Prepared, publication: Publication) returns (again: Option<Pending>)
      requires Valid()
      modifies this`item, this`rows, this`asked, this`files
      ensures Valid() && Onward()
      ensures again.Some? ==> item.state.Yielding? && item.requestId.value in rows
      ensures again.Some? ==> again.value == PendingFrom(item, load(rows[item.requestId.value]).value, q.paths)
      ensures again.Some? ==> !old(Ended(item))
      ensures again.Some? && item.segment == old(item).segment && !old(item).state.Queued? ==> Terminate !in meanwhile
      ensures meanwhile == [] && old(item).state.Yielding? && Matches(q, old(item)) ==>
                Publishable(old(FileOf(item.segment)), old(load(rows[item.requestId.value]).value.source), publication) ==> again.Some?
    {
      Wait(meanwhile);
      again := RecoverPending(q, publication);
    }

    /** Any number of transitions by others: a termination within the segment is final. */
    method Wait(meanwhile: seq<Change>)
      requires Valid()
      modifies this`item, this`rows, this`asked, this`files
      ensures Valid() && Onward()
      ensures !old(item).state.Queued? && item.segment == old(item).segment && Terminate in meanwhile ==> Ended(item)
      ensures meanwhile == [] ==> item == old(item) && rows == old(rows) && files == old(files)
    {
      for i := 0 to |meanwhile|
        invariant Valid() && Onward()
        invariant !old(item).state.Queued? && item.segment == old(item).segment && Terminate in meanwhile[..i] ==> Ended(item)
        invariant i == 0 ==> item == old(item) && rows == old(rows) && files == old(files)
      {
        assert meanwhile[..i + 1] == meanwhile[..i] + [meanwhile[i]];
        Suffer(meanwhile[i]);
      }
      assert meanwhile[..|meanwhile|] == meanwhile;
    }
  }
}
