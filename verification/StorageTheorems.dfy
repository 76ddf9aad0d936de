/** Storage is the inverse of rehydration - and exactly for which submissions. */
module StorageTheorems {
  import opened FileSystem
  import opened Canonical
  import opened Admission
  import opened Storage
  import D = Dependencies
  import U = Utf8

  /** The selected command, the declared parameters and the other entries of the execution identity are
      made of pieces of the project and the card. */
  ghost predicate Lawful(w: World) {
    && (forall c, id :: w.job(c, id).Some? ==>
          && (NoWideFloat(c) ==> NoWideFloat(w.job(c, id).value))
          && (Encodable(c, 0) ==> Encodable(w.command(w.job(c, id).value), 0))
          && (NoWideFloat(c) ==> NoWideFloat(w.command(w.job(c, id).value))))
    && (forall c :: NoWideFloat(c) ==> NoWideFloat(Obj(w.parameters(c))))
    && (forall p, c, id, s :: w.job(c, id).Some? && NoWideFloat(p) && NoWideFloat(c) ==>
          NoWideFloat(Obj(w.rest(p, c, w.job(c, id).value, s))))
  }

  // ---------------------------------------------------------------- identity and policy

  /** Two submissions of the same execution. */
  predicate SameExecution(x: Input, y: Input) {
    y == x.(submission := x.submission.(priority := y.submission.priority, hold := y.submission.hold,
                                        dependencies := y.submission.dependencies, operator := y.submission.operator))
  }

  /** The scheduling policy by itself. */
  predicate GoodPolicy(w: World, sub: Submission) {
    && D.Copied(sub.dependencies).Some? && GoodText(w, OperatorText, sub.operator)
    && (sub.hold.Some? ==> GoodText(w, HoldText, sub.hold.value)) && -SIGNED_64 <= sub.priority < SIGNED_64
  }

  /** Scheduling policy decides nothing but its own validity: whether another policy is accepted for an accepted
      execution depends on that policy alone, and it leaves no trace in the execution identity or in any other
      evidence but the policy. */
  lemma IdentityIgnoresPolicy(w: World, x: Input, y: Input)
    requires SameExecution(x, y) && Compile(w, x).Some?
    ensures Compile(w, y).Some? <==> GoodPolicy(w, y.submission)
    ensures GoodPolicy(w, y.submission) ==>
      var s, t := Compile(w, x).value, Compile(w, y).value;
      s.resolved == t.resolved && t == s.(policy := t.policy) && t.policy.bindings == s.policy.bindings
  {
    assert GoodSources(w, y) && GoodFrame(w, y);
    if GoodPolicy(w, y.submission) {
      assert GoodSubmission(w, y.submission);
      var p, c := Project(w, x).value, Card(w, x).value;
      assert Resolved(w, y, p, c, w.job(c, x.submission.jobId).value) == Resolved(w, x, p, c, w.job(c, x.submission.jobId).value);
    }
  }

  /** What a reader of the frozen execution identity finds under each of its names. */
  lemma IdentityHolds(w: World, x: Input)
    requires Accepted(w, x)
    ensures var s, p, c := Build(w, x), Project(w, x).value, Card(w, x).value;
      && s.resolved.Rendered? && s.resolved.normal.Obj?
      && var m := s.resolved.normal.members;
         && NAMED <= m.Keys
         && m[PROJECT_ENTRY] == Norm(p) && m[JOB_ENTRY] == Norm(w.job(c, x.submission.jobId).value)
         && m[CARD_PATH] == Str(x.submission.cardPath) && m[REVISION] == Str(x.revision) && m[COMMIT] == Str(Lower(x.commit))
         && m[PREEMPT] == Bool(x.submission.preempt) && m[COMPILER] == CompilerEntry(x.version)
         && m[PARAMETERS] == Norm(Obj(ResolvedParameters(w, c, x.submission.bindings.members)))
  {
    var p, c := Project(w, x).value, Card(w, x).value;
    var j := w.job(c, x.submission.jobId).value;
    ResolvedHolds(w, x, p, c, j);
    assert Build(w, x).resolved == Rendered(Norm(Resolved(w, x, p, c, j)));
  }

  lemma ResolvedHolds(w: World, x: Input, p: Value, c: Value, j: Value)
    requires x.submission.bindings.Obj?
    ensures var n := Norm(Resolved(w, x, p, c, j));
      && n.Obj? && NAMED <= n.members.Keys
      && n.members[PROJECT_ENTRY] == Norm(p) && n.members[JOB_ENTRY] == Norm(j)
      && n.members[CARD_PATH] == Str(x.submission.cardPath) && n.members[REVISION] == Str(x.revision)
      && n.members[COMMIT] == Str(Lower(x.commit)) && n.members[PREEMPT] == Bool(x.submission.preempt)
      && n.members[COMPILER] == CompilerEntry(x.version)
      && n.members[PARAMETERS] == Norm(Obj(ResolvedParameters(w, c, x.submission.bindings.members)))
  {
    EntriesHold(w, x, p, c, j);
    NamesDiffer();
    NormHolds(Entries(w, x, p, c, j), Obj(ResolvedParameters(w, c, x.submission.bindings.members)));
    assert Norm(CompilerEntry(x.version)).members == CompilerEntry(x.version).members;
  }

  /** Parameters come on top of the other entries and hide none of them. */
  lemma NormHolds(m: map<Text, Value>, parameters: Value)
    requires NAMED - {PARAMETERS} <= m.Keys
    ensures var n := Norm(Obj(m[PARAMETERS := parameters]));
      && n.Obj? && NAMED <= n.members.Keys && n.members[PARAMETERS] == Norm(parameters)
      && forall k <- NAMED - {PARAMETERS} :: n.members[k] == Norm(m[k])
  {}

  const NAMED: set<Text> := {PROJECT_ENTRY, JOB_ENTRY, CARD_PATH, REVISION, COMMIT, PREEMPT, COMPILER, PARAMETERS}

  lemma NamesDiffer()
    ensures |PROJECT_ENTRY| == 7 && |JOB_ENTRY| == 3 && |CARD_PATH| == 8 && |REVISION| == 15 && |COMMIT| == 9
    ensures |PREEMPT| == 20 && |COMPILER| == 8 && |PARAMETERS| == 10 && CARD_PATH != COMPILER
  {
    assert CARD_PATH[1] == 97 && COMPILER[1] == 111;
  }

  lemma EntriesHold(w: World, x: Input, p: Value, c: Value, j: Value)
    ensures var m := Entries(w, x, p, c, j);
      && NAMED - {PARAMETERS} <= m.Keys && m[PROJECT_ENTRY] == p && m[JOB_ENTRY] == j && m[CARD_PATH] == Str(x.submission.cardPath)
      && m[REVISION] == Str(x.revision) && m[COMMIT] == Str(Lower(x.commit)) && m[PREEMPT] == Bool(x.submission.preempt)
      && m[COMPILER] == CompilerEntry(x.version)
  {
    NamesDiffer();
  }

  /** The execution identity determines the execution: two admissions share it only if they agree on the
      project, the job, the card's path, the revision, the commit, the authorisation, the compiler and every
      resolved parameter. */
  lemma IdentityDeterminesExecution(w: World, x: Input, y: Input)
    requires Accepted(w, x) && Accepted(w, y) && Compile(w, x).value.resolved == Compile(w, y).value.resolved
    ensures Norm(Project(w, x).value) == Norm(Project(w, y).value)
    ensures Norm(w.job(Card(w, x).value, x.submission.jobId).value) == Norm(w.job(Card(w, y).value, y.submission.jobId).value)
    ensures x.submission.cardPath == y.submission.cardPath && x.revision == y.revision && Lower(x.commit) == Lower(y.commit)
    ensures x.submission.preempt == y.submission.preempt && x.version == y.version
    ensures Norm(Obj(ResolvedParameters(w, Card(w, x).value, x.submission.bindings.members)))
         == Norm(Obj(ResolvedParameters(w, Card(w, y).value, y.submission.bindings.members)))
  {
    IdentityHolds(w, x);
    IdentityHolds(w, y);
    assert CompilerEntry(x.version).members[VERSION] == Str(x.version);
    assert CompilerEntry(y.version).members[VERSION] == Str(y.version);
  }

  /** What a caller can rely on about whatever compiles: bindings replace declared parameters and nothing else, no
      placeholder is left, authorised preemption is backed by the job, and names agree. */
  lemma CompiledGuarantees(w: World, x: Input)
    requires Compile(w, x).Some?
    ensures var s, p, c := Compile(w, x).value, Project(w, x).value, Card(w, x).value;
      var declared, bound := w.parameters(c), x.submission.bindings.members;
      var rp := ResolvedParameters(w, c, bound);
      && rp.Keys == declared.Keys && (forall k <- declared :: rp[k] == if k in bound then bound[k] else Norm(declared[k]))
      && !Tainted(RESERVED, w.token, Obj(rp))
      && w.job(c, s.policy.jobId).Some? && s.command == w.command(w.job(c, s.policy.jobId).value)
      && (s.policy.preempt ==> w.cooperative(w.job(c, s.policy.jobId).value))
      && w.compatible(p, c) && w.keys(p, c) == (s.policy.key, s.policy.key) && w.beneath(p, s.policy.cardPath) && s.cardName == s.policy.cardPath
      && (s.extension.None? ==> w.bare(p, c))
  {
    LowerIsIdempotent(x.commit);
    BindingsReplace(w, Card(w, x).value, x.submission.bindings.members);
  }

  lemma BindingsReplace(w: World, c: Value, bound: map<Text, Value>)
    requires bound.Keys <= w.parameters(c).Keys
    ensures var declared, rp := w.parameters(c), ResolvedParameters(w, c, bound);
      rp.Keys == declared.Keys && forall k <- declared :: rp[k] == if k in bound then bound[k] else Norm(declared[k])
  {}

  /** ... the frame is in order: portable paths, texts that meet their rules, a full commit in lower case. */
  lemma FrameGuarantees(w: World, x: Input)
    requires Compile(w, x).Some?
    ensures var s := Compile(w, x).value;
      && w.portable(s.projectName) && w.portable(s.cardName) && (x.cardName.Some? ==> x.cardName == Some(s.cardName))
      && w.text(RevisionText, s.revision) && w.text(VersionText, s.version)
      && w.text(JobText, s.policy.jobId) && w.text(OperatorText, s.policy.operator)
      && (s.policy.hold.Some? ==> w.text(HoldText, s.policy.hold.value))
      && (|s.commit| == 40 || |s.commit| == 64)
      && forall i | 0 <= i < |s.commit| :: 48 <= s.commit[i] <= 57 || 97 <= s.commit[i] <= 102
  {}

  /** ... and the policy is in order. */
  lemma PolicyGuarantees(w: World, x: Input)
    requires Compile(w, x).Some?
    ensures var p := Compile(w, x).value.policy;
      && -0x8000_0000_0000_0000 <= p.priority < 0x8000_0000_0000_0000
      && D.Ascending(p.dependencies) && |p.dependencies| == |x.submission.dependencies|
      && (forall i :: i in p.dependencies <==> Int(i) in x.submission.dependencies)
  {
    D.CopiedIsOrdered(x.submission.dependencies);
  }

  /** What each column of the stored evidence is, in terms of what was submitted. */
  lemma StoredColumns(w: World, x: Input)
    requires Accepted(w, x) && Store(w, Build(w, x)).Some?
    ensures var t, p, c := Store(w, Build(w, x)).value, Project(w, x).value, Card(w, x).value;
      var schema := SchemaOf(w, x, p, c);
      && t.revision == x.revision && t.commit == Lower(x.commit) && t.version == x.version
      && t.projectName == x.projectName && t.cardName == x.submission.cardPath == t.cardPath
      && t.key == x.submission.key && t.jobId == x.submission.jobId && t.operator == x.submission.operator
      && t.priority == x.submission.priority && t.hold == x.submission.hold && t.preempt == FlagBool(x.submission.preempt)
      && (schema.None? ==> t.schemaName.None? && t.schemaPath.None? && t.schemaId.None?)
      && (schema.Some? ==> t.schemaName == Some(schema.value.name) && t.schemaPath == Some(schema.value.path) && t.schemaId == schema.value.id)
  {}

  /** ... and each of its documents. */
  lemma StoredDocuments(w: World, x: Input)
    requires Accepted(w, x) && Store(w, Build(w, x)).Some?
    ensures var t, p, c := Store(w, Build(w, x)).value, Project(w, x).value, Card(w, x).value;
      && ALWAYS <= t.blobs.Keys
      && t.blobs[ProjectSource] == Raw(x.projectSource) && t.blobs[CardSource] == Raw(x.cardSource)
      && t.blobs[ProjectDocument] == Rendered(Norm(p)) && t.blobs[CardDocument] == Rendered(Norm(c))
      && t.blobs[CommandSlot] == Rendered(Norm(w.command(w.job(c, x.submission.jobId).value)))
      && t.blobs[BindingsSlot] == Rendered(Norm(x.submission.bindings))
  {
    BlobsAt(Build(w, x));
  }

  /** ... the schema among them, each with its own digest. */
  lemma StoredSchema(w: World, x: Input)
    requires Accepted(w, x) && Store(w, Build(w, x)).Some?
    ensures var t, schema := Store(w, Build(w, x)).value, SchemaOf(w, x, Project(w, x).value, Card(w, x).value);
      && (schema.None? ==> SchemaSource !in t.blobs && SchemaDocument !in t.blobs)
      && (schema.Some? ==> && SCHEMA_SLOTS <= t.blobs.Keys && t.blobs[SchemaSource] == Raw(x.schemaSource.value)
                           && t.blobs[SchemaDocument] == Rendered(Norm(schema.value.document)))
      && (forall s <- t.blobs :: s in t.digests && t.digests[s] == w.hash(t.blobs[s]))
  {
    SchemaIsStored(w, Build(w, x));
  }

  lemma SchemaIsStored(w: World, s: Snapshot)
    requires Storable(s)
    ensures var t := Store(w, s).value;
      && (s.extension.None? ==> SchemaSource !in t.blobs && SchemaDocument !in t.blobs)
      && (s.extension.Some? ==> && SCHEMA_SLOTS <= t.blobs.Keys && t.blobs[SchemaSource] == Raw(s.extension.value.source)
                                && t.blobs[SchemaDocument] == s.extension.value.document)
      && (forall slot <- t.blobs :: slot in t.digests && t.digests[slot] == w.hash(t.blobs[slot]))
  {
    BlobsAt(s);
  }

  /** A flag column may spell a boolean as 0 or 1, and as no other number. */
  lemma FlagSpellings(w: World, t: Stored, b: bool, i: int)
    ensures Rehydrate(w, t.(preempt := FlagInt(if b then 1 else 0))) == Rehydrate(w, t.(preempt := FlagBool(b)))
    ensures i != 0 && i != 1 ==> Rehydrate(w, t.(preempt := FlagInt(i))) == None
  {
    var u, v := t.(preempt := FlagInt(if b then 1 else 0)), t.(preempt := FlagBool(b));
    assert WellShaped(w, u) <==> WellShaped(w, v);
    if WellShaped(w, u) {
      assert AllDecode(w, u) <==> AllDecode(w, v);
    }
  }

  /** Naming the dependencies in another order gives the same snapshot and the same stored bytes. */
  lemma DependencyOrderIsIrrelevant(w: World, x: Input, y: Input)
    requires multiset(x.submission.dependencies) == multiset(y.submission.dependencies)
    requires y == x.(submission := x.submission.(dependencies := y.submission.dependencies))
    ensures Compile(w, x) == Compile(w, y)
  {
    D.PermutationsAgree(x.submission.dependencies, y.submission.dependencies);
    var a, b := x.submission, y.submission;
    assert GoodSubmission(w, a) == GoodSubmission(w, b);
    assert GoodSources(w, x) == GoodSources(w, y);
  }

  // ---------------------------------------------------------------- compiling again

  /** The input that storage gives back: everything in normal form. */
  function Again(x: Input): Input
    requires x.submission.bindings.Obj? && D.Copied(x.submission.dependencies).Some?
  {
    x.(commit := Lower(x.commit), cardName := Some(x.submission.cardPath),
       submission := x.submission.(bindings := Norm(x.submission.bindings),
                                   dependencies := D.AsValues(D.Copied(x.submission.dependencies).value)))
  }

  /** The condition: numbers a JSON integer can carry, and no float that would turn into one it cannot. */
  predicate Portable(w: World, x: Input)
    requires Accepted(w, x)
  {
    var p, c := Project(w, x).value, Card(w, x).value;
    && -SAFE <= x.submission.priority <= SAFE
    && (forall i | 0 <= i < |D.Copied(x.submission.dependencies).value| :: D.Copied(x.submission.dependencies).value[i] <= SAFE)
    && NoWideFloat(x.submission.bindings) && NoWideFloat(p) && NoWideFloat(c)
    && (SchemaOf(w, x, p, c).Some? ==> NoWideFloat(SchemaOf(w, x, p, c).value.document))
  }

  lemma BindingsFitUnderParameters(w: World, x: Input)
    requires Accepted(w, x)
    ensures Encodable(x.submission.bindings, 1)
    ensures Encodable(Obj(ResolvedParameters(w, Card(w, x).value, x.submission.bindings.members)), 1)
  {
    var p, c := Project(w, x).value, Card(w, x).value;
    var r := Resolved(w, x, p, c, w.job(c, x.submission.jobId).value);
    var rp := Obj(ResolvedParameters(w, c, x.submission.bindings.members));
    assert r.members[PARAMETERS] == rp;
    assert Encodable(rp, 1);
    forall k | k in x.submission.bindings.members
      ensures U.Encodable(k) && Encodable(x.submission.bindings.members[k], 2)
    {
      assert k in rp.members && rp.members[k] == x.submission.bindings.members[k];
    }
  }

  lemma OverrideNormalises(base: map<Text, Value>, over: map<Text, Value>, normal: map<Text, Value>)
    requires normal.Keys == over.Keys && forall k <- over :: normal[k] == Norm(over[k])
    ensures Norm(Obj(base + normal)) == Norm(Obj(base + over))
  {
    var m, n := base + over, base + normal;
    forall k | k in m ensures Norm(n[k]) == Norm(m[k]) {
      if k in over {
        NormIsIdempotent(over[k]);
      }
    }
    assert Norm(Obj(n)).members == Norm(Obj(m)).members;
  }

  lemma ParametersNormalise(w: World, c: Value, b: Value)
    requires b.Obj?
    ensures Norm(Obj(ResolvedParameters(w, c, Norm(b).members))) == Norm(Obj(ResolvedParameters(w, c, b.members)))
  {
    var base := map k | k in w.parameters(c) :: Norm(w.parameters(c)[k]);
    OverrideNormalises(base, b.members, Norm(b).members);
  }

  lemma ParametersReencode(w: World, x: Input)
    requires Accepted(w, x) && NoWideFloat(x.submission.bindings)
    ensures Encodable(Obj(ResolvedParameters(w, Card(w, x).value, Norm(x.submission.bindings).members)), 1)
  {
    BindingsFitUnderParameters(w, x);
    var b := x.submission.bindings;
    var m, n := ResolvedParameters(w, Card(w, x).value, b.members), ResolvedParameters(w, Card(w, x).value, Norm(b).members);
    forall k | k in n ensures U.Encodable(k) && Encodable(n[k], 2) {
      assert k in m && Encodable(m[k], 2);
      if k in b.members {
        ReencodableIffNoWideFloat(b.members[k], 2);
      }
    }
  }

  /** Replacing one member of an object by a value with the same normal form keeps the normal form. */
  lemma MemberReplaced(m: map<Text, Value>, k: Text, u: Value, v: Value)
    requires Norm(u) == Norm(v)
    ensures Norm(Obj(m[k := u])) == Norm(Obj(m[k := v]))
    ensures Encodable(Obj(m[k := u]), 0) && Encodable(v, 1) ==> Encodable(Obj(m[k := v]), 0)
  {
    assert Norm(Obj(m[k := u])).members == Norm(Obj(m[k := v])).members;
    if Encodable(Obj(m[k := u]), 0) && Encodable(v, 1) {
      forall l | l in m[k := v] ensures U.Encodable(l) && Encodable(m[k := v][l], 1) {
        assert l in m[k := u];
      }
    }
  }

  lemma ResolvedIsStable(w: World, x: Input)
    requires Accepted(w, x) && NoWideFloat(x.submission.bindings)
    ensures var p, c := Project(w, x).value, Card(w, x).value;
      var j := w.job(c, x.submission.jobId).value;
      && Encodable(Resolved(w, Again(x), p, c, j), 0)
      && Norm(Resolved(w, Again(x), p, c, j)) == Norm(Resolved(w, x, p, c, j))
  {
    var p, c, b := Project(w, x).value, Card(w, x).value, x.submission.bindings;
    var j := w.job(c, x.submission.jobId).value;
    LowerIsIdempotent(x.commit);
    ParametersNormalise(w, c, b);
    ParametersReencode(w, x);
    MemberReplaced(Entries(w, x, p, c, j), PARAMETERS, Obj(ResolvedParameters(w, c, b.members)), Obj(ResolvedParameters(w, c, Norm(b).members)));
  }

  lemma AgainIsAccepted(w: World, x: Input)
    requires Accepted(w, x) && NoWideFloat(x.submission.bindings)
    ensures Accepted(w, Again(x))
  {
    var c, b := Card(w, x).value, x.submission.bindings;
    var y := Again(x);
    ReencodableIffNoWideFloat(b, 0);
    D.CopiedIsIdempotent(x.submission.dependencies);
    LowerIsIdempotent(x.commit);
    assert GoodSubmission(w, y.submission) && GoodFrame(w, y);
    assert GoodSources(w, y);
    ParametersNormalise(w, c, b);
    var m, n := Obj(ResolvedParameters(w, c, b.members)), Obj(ResolvedParameters(w, c, Norm(b).members));
    NormKeepsTaint(RESERVED, w.token, m);
    NormKeepsTaint(RESERVED, w.token, n);
    ResolvedIsStable(w, x);
    assert Norm(b).members.Keys == b.members.Keys;
  }

  /** All normalisations are idempotent: the normal form of an accepted input compiles to the same snapshot. */
  lemma AgainBuildsTheSame(w: World, x: Input)
    requires Accepted(w, x) && NoWideFloat(x.submission.bindings)
    ensures Compile(w, Again(x)) == Compile(w, x)
  {
    AgainIsAccepted(w, x);
    NormIsIdempotent(x.submission.bindings);
    D.CopiedIsIdempotent(x.submission.dependencies);
    LowerIsIdempotent(x.commit);
    ResolvedIsStable(w, x);
  }

  // ---------------------------------------------------------------- storing and reading back

  lemma IntsAreNormal(s: seq<int>)
    ensures Norm(Arr(D.AsValues(s))) == Arr(D.AsValues(s)) && NoWideFloat(Arr(D.AsValues(s)))
  {
    assert Norm(Arr(D.AsValues(s))).items == D.AsValues(s);
  }

  lemma IntsEncodable(s: seq<int>, depth: nat)
    requires depth < MAX_NESTING_DEPTH && forall i | 0 <= i < |s| :: 1 <= s[i]
    ensures Encodable(Arr(D.AsValues(s)), depth) <==> forall i | 0 <= i < |s| :: s[i] <= SAFE
  {
    var a := Arr(D.AsValues(s));
    assert forall i | 0 <= i < |s| :: a.items[i] == Int(s[i]);
    if Encodable(a, depth) {
      forall i | 0 <= i < |s| ensures s[i] <= SAFE {
        assert Encodable(a.items[i], depth + 1);
      }
    }
  }

  lemma DependenciesArePositive(x: Input)
    requires D.Copied(x.submission.dependencies).Some?
    ensures forall i | 0 <= i < |D.Copied(x.submission.dependencies).value| :: 1 <= D.Copied(x.submission.dependencies).value[i]
  {
    var values := x.submission.dependencies;
    var s := D.Copied(values).value;
    D.CopiedIsOrdered(values);
    forall i | 0 <= i < |s| ensures 1 <= s[i] {
      assert s[i] in s;
      assert Int(s[i]) in values;
      var k :| 0 <= k < |values| && values[k] == Int(s[i]);
      assert D.ItemId(values[k]);
    }
  }

  lemma MemberAdded(m: map<Text, Value>, k: Text, v: Value)
    requires k !in m && U.Encodable(k)
    ensures Encodable(Obj(m[k := v]), 0) <==> Encodable(Obj(m), 0) && Encodable(v, 1)
  {
    var n := m[k := v];
    assert n[k] == v && forall l <- m :: n[l] == m[l];
    if Encodable(Obj(n), 0) {
      assert Encodable(n[k], 1);
      assert forall l <- m :: U.Encodable(l) && Encodable(n[l], 1);
    }
  }

  lemma MemberSet(m: map<Text, Value>, k: Text, v: Value)
    requires NoWideFloat(Obj(m)) && NoWideFloat(v)
    ensures NoWideFloat(Obj(m[k := v]))
  {}

  lemma PolicyNamesDiffer(p: Policy)
    ensures BINDINGS !in PolicyTexts(p) && PRIORITY !in PolicyTexts(p) && DEPENDENCIES !in PolicyTexts(p)
    ensures PRIORITY != BINDINGS && DEPENDENCIES != BINDINGS && DEPENDENCIES != PRIORITY
  {
    assert forall k <- PolicyTexts(p) :: |k| == 1 && k[0] != 4 && k[0] != 5 && k[0] != 7;
  }

  lemma PolicyTextsAreEncodable(w: World, sub: Submission)
    requires GoodSubmission(w, sub)
    ensures Encodable(Obj(PolicyTexts(PolicyOf(w, sub))), 0) && NoWideFloat(Obj(PolicyTexts(PolicyOf(w, sub))))
  {
    var m := PolicyTexts(PolicyOf(w, sub));
    assert forall k <- m :: U.Encodable(k) && (m[k].Null? || m[k].Bool? || (m[k].Str? && U.Encodable(m[k].t)));
  }

  /** The policy document can be encoded exactly when its numbers can. */
  lemma PolicyEncodableIff(w: World, x: Input)
    requires Accepted(w, x)
    ensures Encodable(PolicyDocument(PolicyOf(w, x.submission)), 0) <==>
              && -SAFE <= x.submission.priority <= SAFE && NoWideFloat(x.submission.bindings)
              && Encodable(Arr(D.AsValues(D.Copied(x.submission.dependencies).value)), 1)
  {
    BindingsFitUnderParameters(w, x);
    ReencodableIffNoWideFloat(x.submission.bindings, 1);
    PolicyTextsAreEncodable(w, x.submission);
    PolicyMembersEncodable(PolicyOf(w, x.submission));
  }

  lemma PolicyMembersEncodable(p: Policy)
    requires p.bindings.Rendered? && Encodable(Obj(PolicyTexts(p)), 0)
    ensures Encodable(PolicyDocument(p), 0) <==>
              Encodable(p.bindings.normal, 1) && -SAFE <= p.priority <= SAFE && Encodable(Arr(D.AsValues(p.dependencies)), 1)
  {
    var m := PolicyTexts(p);
    PolicyNamesDiffer(p);
    var n := m[BINDINGS := p.bindings.normal];
    MemberAdded(m, BINDINGS, p.bindings.normal);
    var o := n[PRIORITY := Int(p.priority)];
    MemberAdded(n, PRIORITY, Int(p.priority));
    MemberAdded(o, DEPENDENCIES, Arr(D.AsValues(p.dependencies)));
  }

  /** When storing succeeds at all. */
  lemma StorableIff(w: World, x: Input)
    requires Lawful(w) && Accepted(w, x)
    ensures Store(w, Build(w, x)).Some? <==>
              && -SAFE <= x.submission.priority <= SAFE && NoWideFloat(x.submission.bindings)
              && (forall i | 0 <= i < |D.Copied(x.submission.dependencies).value| :: D.Copied(x.submission.dependencies).value[i] <= SAFE)
  {
    PolicyEncodableIff(w, x);
    DependenciesArePositive(x);
    IntsEncodable(D.Copied(x.submission.dependencies).value, 0);
    IntsEncodable(D.Copied(x.submission.dependencies).value, 1);
  }

  lemma NormHasNoWideFloat(j: Value)
    ensures NoWideFloat(Norm(j))
    decreases j
  {
    match j
    case Arr(items) =>
      forall i | 0 <= i < |items| ensures NoWideFloat(Norm(j).items[i]) {
        NormHasNoWideFloat(items[i]);
      }
    case Obj(members) =>
      forall k | k in members ensures NoWideFloat(Norm(j).members[k]) {
        NormHasNoWideFloat(members[k]);
      }
    case _ =>
  }

  lemma ResolvedHasNoWideFloat(w: World, x: Input)
    requires Lawful(w) && Accepted(w, x) && Portable(w, x)
    ensures NoWideFloat(Resolved(w, x, Project(w, x).value, Card(w, x).value, w.job(Card(w, x).value, x.submission.jobId).value))
  {
    var p, c := Project(w, x).value, Card(w, x).value;
    var j := w.job(c, x.submission.jobId).value;
    var rp := ResolvedParameters(w, c, x.submission.bindings.members);
    forall k | k in rp ensures NoWideFloat(rp[k]) {
      if k !in x.submission.bindings.members {
        NormHasNoWideFloat(w.parameters(c)[k]);
      }
    }
    EntriesHaveNoWideFloat(w, x, p, c, j);
    MemberSet(Entries(w, x, p, c, j), PARAMETERS, Obj(rp));
  }

  lemma EntriesHaveNoWideFloat(w: World, x: Input, p: Value, c: Value, j: Value)
    requires NoWideFloat(Obj(w.rest(p, c, j, SchemaOf(w, x, p, c)))) && NoWideFloat(p) && NoWideFloat(j)
    ensures NoWideFloat(Obj(Entries(w, x, p, c, j)))
  {
    var m := Entries(w, x, p, c, j);
    assert NoWideFloat(CompilerEntry(x.version));
    forall k | k in m ensures NoWideFloat(m[k]) {}
  }

  lemma PolicyDocumentHasNoWideFloat(w: World, sub: Submission)
    requires GoodSubmission(w, sub) && NoWideFloat(Norm(sub.bindings))
    ensures NoWideFloat(PolicyDocument(PolicyOf(w, sub)))
  {
    var p := PolicyOf(w, sub);
    var m := PolicyTexts(p);
    PolicyTextsAreEncodable(w, sub);
    IntsAreNormal(p.dependencies);
    MemberSet(m, BINDINGS, p.bindings.normal);
    MemberSet(m[BINDINGS := p.bindings.normal], PRIORITY, Int(p.priority));
    MemberSet(m[BINDINGS := p.bindings.normal][PRIORITY := Int(p.priority)], DEPENDENCIES, Arr(D.AsValues(p.dependencies)));
  }

  lemma BlobsAt(s: Snapshot)
    requires s.policy.bindings.Rendered?
    ensures var b := Blobs(s);
      && b.Keys == ALWAYS + (if s.extension.Some? then SCHEMA_SLOTS else {})
      && b[ProjectDocument] == s.projectDocument && b[CardDocument] == s.cardDocument && b[ResolvedSlot] == s.resolved
      && b[CommandSlot] == Rendered(Norm(s.command)) && b[BindingsSlot] == s.policy.bindings
      && b[DependenciesSlot] == Rendered(Norm(Arr(D.AsValues(s.policy.dependencies))))
      && b[PolicySlot] == Rendered(Norm(PolicyDocument(s.policy)))
      && b[ProjectSource] == Raw(s.projectSource) && b[CardSource] == Raw(s.cardSource)
      && (s.extension.Some? ==> b[SchemaSource] == Raw(s.extension.value.source) && b[SchemaDocument] == s.extension.value.document)
  {}

  /** The stored documents of a portable snapshot all decode, each to the normal form of what was encoded. */
  lemma PolicyDocumentsDecode(w: World, x: Input)
    requires Lawful(w) && Accepted(w, x) && Portable(w, x) && Storable(Build(w, x))
    ensures var s := Build(w, x);
      && DecodeStored(w.other, s.policy.bindings) == Some(Norm(x.submission.bindings))
      && (var ids := Arr(D.AsValues(s.policy.dependencies)); DecodeStored(w.other, Rendered(Norm(ids))) == Some(ids))
      && DecodeStored(w.other, Rendered(Norm(PolicyDocument(s.policy)))).Some?
      && DecodeStored(w.other, Rendered(Norm(s.command))).Some?
  {
    var s := Build(w, x);
    EncodingReadsBack(w.other, x.submission.bindings);
    IntsAreNormal(s.policy.dependencies);
    EncodingReadsBack(w.other, Arr(D.AsValues(s.policy.dependencies)));
    NormHasNoWideFloat(x.submission.bindings);
    PolicyDocumentHasNoWideFloat(w, x.submission);
    EncodingReadsBack(w.other, PolicyDocument(s.policy));
    EncodingReadsBack(w.other, s.command);
  }

  lemma SourceDocumentsDecode(w: World, x: Input)
    requires Lawful(w) && Accepted(w, x) && Portable(w, x) && Storable(Build(w, x))
    ensures var s := Build(w, x);
      && DecodeStored(w.other, s.projectDocument).Some? && DecodeStored(w.other, s.cardDocument).Some?
      && DecodeStored(w.other, s.resolved).Some?
  {
    var p, c := Project(w, x).value, Card(w, x).value;
    EncodingReadsBack(w.other, p);
    EncodingReadsBack(w.other, c);
    ResolvedHasNoWideFloat(w, x);
    var r := Resolved(w, x, p, c, w.job(c, x.submission.jobId).value);
    EncodingReadsBack(w.other, r);
  }

  lemma SchemaDocumentDecodes(w: World, x: Input)
    requires Accepted(w, x) && Portable(w, x) && Storable(Build(w, x)) && Build(w, x).extension.Some?
    ensures DecodeStored(w.other, Build(w, x).extension.value.document).Some?
  {
    EncodingReadsBack(w.other, SchemaOf(w, x, Project(w, x).value, Card(w, x).value).value.document);
  }

  lemma StoredIsWellShaped(w: World, s: Snapshot)
    requires Storable(s)
    ensures WellShaped(w, Store(w, s).value)
  {
    BlobsAt(s);
  }

  lemma AllDecodeFrom(w: World, t: Stored)
    requires DOCUMENTS <= t.blobs.Keys
    requires Document(w, t, ProjectDocument).Some? && Document(w, t, CardDocument).Some? && Document(w, t, ResolvedSlot).Some?
    requires Document(w, t, CommandSlot).Some? && Document(w, t, PolicySlot).Some?
    requires Document(w, t, BindingsSlot).Some? && Document(w, t, BindingsSlot).value.Obj?
    requires Document(w, t, DependenciesSlot).Some? && Document(w, t, DependenciesSlot).value.Arr?
    requires SchemaDocument in t.blobs ==> Document(w, t, SchemaDocument).Some?
    ensures AllDecode(w, t)
  {}

  /** All documents of a snapshot are encodings that decode. */
  predicate DocumentsDecode(w: World, s: Snapshot)
    requires s.policy.bindings.Rendered?
  {
    var ids := Arr(D.AsValues(s.policy.dependencies));
    && DecodeStored(w.other, s.projectDocument).Some? && DecodeStored(w.other, s.cardDocument).Some?
    && DecodeStored(w.other, s.resolved).Some? && DecodeStored(w.other, Rendered(Norm(s.command))).Some?
    && DecodeStored(w.other, Rendered(Norm(PolicyDocument(s.policy)))).Some?
    && DecodeStored(w.other, s.policy.bindings).Some? && DecodeStored(w.other, s.policy.bindings).value.Obj?
    && DecodeStored(w.other, Rendered(Norm(ids))) == Some(ids)
    && (s.extension.Some? ==> DecodeStored(w.other, s.extension.value.document).Some?)
  }

  lemma StoredAllDecode(w: World, s: Snapshot)
    requires Storable(s) && DocumentsDecode(w, s)
    ensures var t := Store(w, s).value;
      && DOCUMENTS <= t.blobs.Keys && AllDecode(w, t)
      && Document(w, t, BindingsSlot) == DecodeStored(w.other, s.policy.bindings)
      && Document(w, t, DependenciesSlot) == DecodeStored(w.other, Rendered(Norm(Arr(D.AsValues(s.policy.dependencies)))))
  {
    BlobsAt(s);
    AllDecodeFrom(w, Store(w, s).value);
  }

  /** The input rebuilt from a stored snapshot, field by field. */
  lemma ReinputFields(w: World, s: Snapshot)
    requires Storable(s) && WellShaped(w, Store(w, s).value) && AllDecode(w, Store(w, s).value)
    ensures var t := Store(w, s).value;
      Reinput(w, t) ==
        Input(s.projectSource, s.cardSource,
              Submission(s.policy.key, s.policy.cardPath, s.policy.jobId, s.policy.operator, Document(w, t, BindingsSlot).value,
                         s.policy.priority, s.policy.hold, Document(w, t, DependenciesSlot).value.items, s.policy.preempt),
              s.revision, s.commit, s.version, if s.extension.None? then None else Some(s.extension.value.source),
              s.projectName, Some(s.cardName))
  {
    BlobsAt(s);
  }

  lemma AgainFromSnapshot(w: World, x: Input)
    requires Accepted(w, x)
    ensures var s := Build(w, x);
      Again(x) ==
        Input(s.projectSource, s.cardSource,
              Submission(s.policy.key, s.policy.cardPath, s.policy.jobId, s.policy.operator, Norm(x.submission.bindings),
                         s.policy.priority, s.policy.hold, D.AsValues(s.policy.dependencies), s.policy.preempt),
              s.revision, s.commit, s.version, if s.extension.None? then None else Some(s.extension.value.source),
              s.projectName, Some(s.cardName))
  {}

  lemma PortableDocumentsDecode(w: World, x: Input)
    requires Lawful(w) && Accepted(w, x) && Portable(w, x) && Storable(Build(w, x))
    ensures DocumentsDecode(w, Build(w, x))
    ensures DecodeStored(w.other, Build(w, x).policy.bindings) == Some(Norm(x.submission.bindings))
  {
    PolicyDocumentsDecode(w, x);
    SourceDocumentsDecode(w, x);
    if Build(w, x).extension.Some? {
      SchemaDocumentDecodes(w, x);
    }
  }

  /** What storage gives back to the compiler is the input in normal form. */
  lemma StoredReinput(w: World, x: Input, s: Snapshot)
    requires Lawful(w) && Accepted(w, x) && Portable(w, x) && Storable(Build(w, x)) && s == Build(w, x)
    ensures var t := Store(w, s).value;
      WellShaped(w, t) && AllDecode(w, t) && Reinput(w, t) == Again(x)
  {
    PortableDocumentsDecode(w, x);
    AgainFromSnapshot(w, x);
    ReinputOf(w, s, x);
  }

  lemma ReinputOf(w: World, s: Snapshot, x: Input)
    requires Storable(s) && DocumentsDecode(w, s)
    requires DecodeStored(w.other, s.policy.bindings) == Some(Norm(x.submission.bindings))
    ensures var t := Store(w, s).value;
      && WellShaped(w, t) && AllDecode(w, t)
      && Reinput(w, t) ==
           Input(s.projectSource, s.cardSource,
                 Submission(s.policy.key, s.policy.cardPath, s.policy.jobId, s.policy.operator, Norm(x.submission.bindings),
                            s.policy.priority, s.policy.hold, D.AsValues(s.policy.dependencies), s.policy.preempt),
                 s.revision, s.commit, s.version, if s.extension.None? then None else Some(s.extension.value.source),
                 s.projectName, Some(s.cardName))
  {
    StoredIsWellShaped(w, s);
    StoredAllDecode(w, s);
    ReinputFields(w, s);
  }

  /** Every document of evidence that is read back could be encoded again. */
  lemma RehydratedIsPortable(w: World, x: Input)
    requires Lawful(w) && Accepted(w, x) && Storable(Build(w, x)) && Rehydrate(w, Store(w, Build(w, x)).value).Some?
    ensures Portable(w, x)
  {
    var s := Build(w, x);
    var t := Store(w, s).value;
    var p, c := Project(w, x).value, Card(w, x).value;
    BlobsAt(s);
    StorableIff(w, x);
    assert Document(w, t, ProjectDocument).Some? && Document(w, t, CardDocument).Some?;
    EncodingReadsBack(w.other, p);
    EncodingReadsBack(w.other, c);
    if SchemaOf(w, x, p, c).Some? {
      EncodingReadsBack(w.other, SchemaOf(w, x, p, c).value.document);
      assert Document(w, t, SchemaDocument).Some?;
    }
  }

  /** Storage is the inverse of rehydration for exactly the portable submissions: a compiled snapshot can be
      stored and read back as an equal snapshot if and only if its priority and dependencies are safe JSON
      integers and none of its documents holds a float that reads back as an unsafe one. */
  lemma StoredSnapshotRehydrates(w: World, x: Input)
    requires Lawful(w) && Accepted(w, x)
    ensures var s := Build(w, x);
      Store(w, s).Some? && Rehydrate(w, Store(w, s).value) == Some(s) <==> Portable(w, x)
  {
    StorableIff(w, x);
    if Portable(w, x) {
      StoredReinput(w, x, Build(w, x));
      AgainBuildsTheSame(w, x);
    } else if Storable(Build(w, x)) && Rehydrate(w, Store(w, Build(w, x)).value).Some? {
      RehydratedIsPortable(w, x);
    }
  }
}
