/**
 * Deriving agent tasks from artifacts: every input artifact has its task or an accepted
 * output, nothing else is created, and nothing is created twice - in one coordinator run
 * after run, and among concurrent ones.
 */
module MissingWork {
  import opened Common
  import opened StoreModel
  import opened StoreInvariants
  import opened StoreSafety
  import StoreGuarantees
  import AgentTaskHistory
  import opened RuntimeStore

  // ---------------------------------------------------------------- artifacts and rules

  datatype Json = Scalar(value: Id) | Items(items: seq<Json>)   // an object stands for its values

  /** The value occurs anywhere in a document. */
  predicate ContainsValue(j: Json, value: Id) {
    match j
    case Scalar(v) => v == value
    case Items(items) => exists k :: 0 <= k < |items| && ContainsValue(items[k], value)
  }

  /** `content` is `None` where it cannot be read. */
  datatype Artifact = Artifact(id: Id, kind: Id, content: Option<Json>)

  /** Any one group of output kinds, all present, means that the work has been done. */
  datatype Rule = Rule(inputKind: Id, taskType: Id, alternatives: seq<set<Id>>)

  /** The digests that name tasks and their idempotency keys. */
  datatype Digests = Digests(key: (Id, Id, Id) -> Id, task: (Id, Id) -> Id)

  ghost predicate Injective(d: Digests) {
    && (forall a, b, c, a', b', c' :: d.key(a, b, c) == d.key(a', b', c') ==> a == a' && b == b' && c == c')
    && (forall r, k, r', k' :: d.task(r, k) == d.task(r', k') ==> r == r' && k == k')
  }

  function KeyOf(d: Digests, rule: Rule, a: Artifact): Id {
    d.key(rule.taskType, rule.inputKind, a.id)
  }

  function InputsOf(rule: Rule, artifacts: seq<Artifact>): (inputs: seq<Artifact>)
    ensures forall a :: a in inputs <==> a in artifacts && a.kind == rule.inputKind
  {
    if artifacts == [] then []
    else
      var last := artifacts[|artifacts| - 1];
      InputsOf(rule, artifacts[..|artifacts| - 1]) + if last.kind == rule.inputKind then [last] else []
  }

  /** An output belongs to the only input of its kind, or to the inputs its content names. */
  predicate BelongsTo(output: Artifact, input: Artifact, single: bool) {
    single || (output.content.Some? && ContainsValue(output.content.value, input.id))
  }

  predicate KindPresent(artifacts: seq<Artifact>, kind: Id, input: Artifact, single: bool) {
    exists k :: 0 <= k < |artifacts| && artifacts[k].kind == kind && BelongsTo(artifacts[k], input, single)
  }

  predicate GroupPresent(artifacts: seq<Artifact>, group: set<Id>, input: Artifact, single: bool) {
    forall kind :: kind in group ==> KindPresent(artifacts, kind, input, single)
  }

  /** Some accepted group of outputs is complete for this input. */
  predicate Satisfied(rule: Rule, input: Artifact, artifacts: seq<Artifact>) {
    var single := |InputsOf(rule, artifacts)| == 1;
    exists g :: 0 <= g < |rule.alternatives| && GroupPresent(artifacts, rule.alternatives[g], input, single)
  }

  /** The part of a document that a path leads to. */
  function JsonAt(j: Json, path: seq<nat>): Option<Json>
    decreases |path|
  {
    if path == [] then Some(j)
    else if j.Items? && path[0] < |j.items| then JsonAt(j.items[path[0]], path[1..])
    else None
  }

  ghost predicate Mentions(j: Json, value: Id) {
    exists path :: JsonAt(j, path) == Some(Scalar(value))
  }

  lemma {:induction false} ContainsIff(j: Json, value: Id)
    ensures ContainsValue(j, value) <==> Mentions(j, value)
  {
    match j {
      case Scalar(v) =>
        assert JsonAt(j, []) == Some(j);
        if Mentions(j, value) {
          var path :| JsonAt(j, path) == Some(Scalar(value));
          assert path == [];
        }
      case Items(items) =>
        if k :| 0 <= k < |items| && ContainsValue(items[k], value) {
          ContainsIff(items[k], value);
          var path :| JsonAt(items[k], path) == Some(Scalar(value));
          assert ([k] + path)[1..] == path;
          assert JsonAt(j, [k] + path) == Some(Scalar(value));
        }
        if Mentions(j, value) {
          var path :| JsonAt(j, path) == Some(Scalar(value));
          assert path != [] && path[0] < |items|;
          assert JsonAt(items[path[0]], path[1..]) == Some(Scalar(value));
          ContainsIff(items[path[0]], value);
        }
    }
  }

  ghost function OfKind(artifacts: seq<Artifact>, kind: Id): set<nat> {
    set k: nat | k < |artifacts| && artifacts[k].kind == kind
  }

  lemma {:induction false} InputsAreOfKind(rule: Rule, artifacts: seq<Artifact>)
    ensures |InputsOf(rule, artifacts)| == |OfKind(artifacts, rule.inputKind)|
  {
    if artifacts != [] {
      var n := |artifacts| - 1;
      InputsAreOfKind(rule, artifacts[..n]);
      var before := OfKind(artifacts[..n], rule.inputKind);
      assert OfKind(artifacts, rule.inputKind) == if artifacts[n].kind == rule.inputKind then before + {n} else before;
    }
  }

  /** An artifact of this kind that answers the input: the input is the only one, or it is mentioned. */
  ghost predicate Answered(rule: Rule, input: Artifact, artifacts: seq<Artifact>, kind: Id) {
    exists k :: 0 <= k < |artifacts| && artifacts[k].kind == kind &&
      (|OfKind(artifacts, rule.inputKind)| == 1 ||
       (artifacts[k].content.Some? && Mentions(artifacts[k].content.value, input.id)))
  }

  ghost predicate GroupAnswered(rule: Rule, input: Artifact, artifacts: seq<Artifact>, g: nat)
    requires g < |rule.alternatives|
  {
    forall kind :: kind in rule.alternatives[g] ==> Answered(rule, input, artifacts, kind)
  }

  /** An input is satisfied exactly if every kind of some accepted group answers it. */
  lemma SatisfiedIff(rule: Rule, input: Artifact, artifacts: seq<Artifact>)
    ensures Satisfied(rule, input, artifacts) <==>
            exists g: nat :: g < |rule.alternatives| && GroupAnswered(rule, input, artifacts, g)
  {
    hide InputsOf;
    var single := |InputsOf(rule, artifacts)| == 1;
    forall g: nat | g < |rule.alternatives|
      ensures GroupPresent(artifacts, rule.alternatives[g], input, single) <==> GroupAnswered(rule, input, artifacts, g)
    {
      GroupAlike(rule, input, artifacts, g);
    }
  }

  lemma GroupAlike(rule: Rule, input: Artifact, artifacts: seq<Artifact>, g: nat)
    requires g < |rule.alternatives|
    ensures GroupPresent(artifacts, rule.alternatives[g], input, |InputsOf(rule, artifacts)| == 1) <==>
            GroupAnswered(rule, input, artifacts, g)
  {
    hide InputsOf;
    hide KindPresent;
    hide Answered;
    forall kind ensures KindPresent(artifacts, kind, input, |InputsOf(rule, artifacts)| == 1) <==> Answered(rule, input, artifacts, kind) {
      KindAlike(rule, input, artifacts, kind);
    }
  }

  lemma KindAlike(rule: Rule, input: Artifact, artifacts: seq<Artifact>, kind: Id)
    ensures KindPresent(artifacts, kind, input, |InputsOf(rule, artifacts)| == 1) <==> Answered(rule, input, artifacts, kind)
  {
    hide ContainsValue;
    hide Mentions;
    hide InputsOf;
    InputsAreOfKind(rule, artifacts);
    forall k | 0 <= k < |artifacts| && artifacts[k].content.Some?
      ensures ContainsValue(artifacts[k].content.value, input.id) <==> Mentions(artifacts[k].content.value, input.id)
    {
      ContainsIff(artifacts[k].content.value, input.id);
    }
  }

  method HasCorrespondingOutput(rule: Rule, input: Artifact, inputs: nat, artifacts: seq<Artifact>) returns (found: bool)
    requires inputs == |InputsOf(rule, artifacts)|
    ensures found <==> Satisfied(rule, input, artifacts)
  {
    var relevant: set<Id> := {};
    for g := 0 to |rule.alternatives|
      invariant forall kind :: kind in relevant <==> exists m :: 0 <= m < g && kind in rule.alternatives[m]
    {
      relevant := relevant + rule.alternatives[g];
    }
    var present: set<Id> := {};
    for k := 0 to |artifacts|
      invariant forall kind :: kind in present <==>
        kind in relevant &&
        exists m :: 0 <= m < k && artifacts[m].kind == kind && BelongsTo(artifacts[m], input, inputs == 1)
    {
      if artifacts[k].kind in relevant && BelongsTo(artifacts[k], input, inputs == 1) {
        present := present + {artifacts[k].kind};
      }
    }
    found := false;
    for g := 0 to |rule.alternatives|
      invariant found <==> exists m :: 0 <= m < g && GroupPresent(artifacts, rule.alternatives[m], input, inputs == 1)
    {
      var group := rule.alternatives[g];
      assert group <= present <==> GroupPresent(artifacts, group, input, inputs == 1) by {
        assert forall kind :: kind in group ==> kind in relevant;
        assert forall kind :: kind in group ==> (kind in present <==> KindPresent(artifacts, kind, input, inputs == 1));
      }
      if group <= present { found := true; }
    }
  }

  // ---------------------------------------------------------------- tasks in the store

  ghost predicate Known(db: Db, r: Id, key: Id) {
    exists id :: id in db.agentTasks && db.agentTasks[id].runId == r && db.agentTasks[id].key == key
  }

  /** A task id made from a run and a key names that agent task. */
  ghost predicate NamedByDigest(db: Db, d: Digests) {
    forall r, k {:trigger d.task(r, k)} ::
      d.task(r, k) in db.agentTasks ==>
        db.agentTasks[d.task(r, k)].runId == r && db.agentTasks[d.task(r, k)].key == k
  }

  function NewTask(r: Id, key: Id, max: int, now: int): AgentTask {
    AgentTask(r, key, TaskStatus.Pending, 0, max, None, None, now, [])
  }

  lemma AddEffect(db: Db, d: Digests, r: Id, key: Id, max: int, now: int)
    requires NamedByDigest(db, d) && Injective(d) && r in db.runs
    ensures var id, tx := d.task(r, key), AddAgentTask(db, d.task(r, key), r, key, max, now);
            if Known(db, r, key) then tx.db == db && tx.reply.Duplicate?
            else && id !in db.agentTasks && tx.reply == Done
                 && tx.db == db.(agentTasks := db.agentTasks[id := NewTask(r, key, max, now)])
                 && NamedByDigest(tx.db, d) && Known(tx.db, r, key)
  {
    var id, tx := d.task(r, key), AddAgentTask(db, d.task(r, key), r, key, max, now);
    if !Known(db, r, key) {
      assert tx.db.agentTasks[id].runId == r && tx.db.agentTasks[id].key == key;
    }
  }

  lemma StaysKnown(db: Db, d: Db, r: Id, key: Id)
    requires Known(db, r, key)
    requires forall id :: id in db.agentTasks ==> id in d.agentTasks && d.agentTasks[id] == db.agentTasks[id]
    ensures Known(d, r, key)
  {
    var id :| id in db.agentTasks && db.agentTasks[id].runId == r && db.agentTasks[id].key == key;
    assert d.agentTasks[id] == db.agentTasks[id];
  }

  // ---------------------------------------------------------------- one reconciliation

  /** An input artifact has its task, or an accepted output. */
  ghost predicate Served(db: Db, d: Digests, r: Id, rule: Rule, a: Artifact, artifacts: seq<Artifact>) {
    Known(db, r, KeyOf(d, rule, a)) || Satisfied(rule, a, artifacts)
  }

  ghost predicate AllServed(db: Db, d: Digests, r: Id, rules: seq<Rule>, artifacts: seq<Artifact>) {
    forall i, a {:trigger Served(db, d, r, rules[i], a, artifacts)} ::
      0 <= i < |rules| && a in InputsOf(rules[i], artifacts) ==> Served(db, d, r, rules[i], a, artifacts)
  }

  /** A task that a rule asks for and that neither existed nor had its output. */
  ghost predicate WasMissing(db: Db, d: Digests, r: Id, rules: seq<Rule>, artifacts: seq<Artifact>, id: Id) {
    exists i, a ::
      && 0 <= i < |rules| && a in InputsOf(rules[i], artifacts) && id == d.task(r, KeyOf(d, rules[i], a))
      && !Served(db, d, r, rules[i], a, artifacts)
  }

  /** The rows of `before`, unchanged, and the created ones. */
  ghost predicate Grown(before: Db, db: Db, created: seq<Id>) {
    && db == before.(agentTasks := db.agentTasks)
    && (forall id :: id in db.agentTasks <==> id in before.agentTasks || id in created)
    && (forall id :: id in before.agentTasks ==> db.agentTasks[id] == before.agentTasks[id] && id !in created)
    && (forall i, j :: 0 <= i < j < |created| ==> created[i] != created[j])
  }

  /**
   * `read` holds the idempotency keys this coordinator read when it began; others may have
   * added tasks since. Creates exactly what is missing.
   */
  method Reconcile(
    store: Store, d: Digests, r: Id, rules: seq<Rule>, artifacts: seq<Artifact>, read: set<Id>, max: int, now: int)
    returns (created: seq<Id>)
    requires store.Valid() && Injective(d) && NamedByDigest(store.Content(), d) && r in store.runs
    requires forall key :: key in read ==> Known(store.Content(), r, key)
    modifies store
    ensures store.Valid() && NamedByDigest(store.Content(), d) && store.runs == old(store.runs)
    ensures Grown(old(store.Content()), store.Content(), created)
    ensures AllServed(store.Content(), d, r, rules, artifacts)
    ensures forall id :: id in created ==> WasMissing(old(store.Content()), d, r, rules, artifacts, id)
  {
    hide Inv;
    hide Reconciling;
    ghost var before := store.Content();
    created := [];
    var known := read;
    ReconcilingStarts(before, d, r, rules, artifacts, known);
    for i := 0 to |rules|
      invariant store.Valid() && store.runs == before.runs
      invariant Reconciling(before, store.Content(), d, r, rules, artifacts, i, 0, created, known)
    {
      var inputs := InputsOf(rules[i], artifacts);
      for k := 0 to |inputs|
        invariant store.Valid() && store.runs == before.runs
        invariant Reconciling(before, store.Content(), d, r, rules, artifacts, i, k, created, known)
      {
        var key := KeyOf(d, rules[i], inputs[k]);
        ghost var db := store.Content();
        InputServed(before, db, d, r, rules, artifacts, i, k, created, known);
        if key in known { continue; }
        var satisfied := HasCorrespondingOutput(rules[i], inputs[k], |inputs|, artifacts);
        if satisfied { continue; }
        KeepsNames(before, db, d, r, rules, artifacts, i, k, created, known);
        AddEffect(db, d, r, key, max, now);
        InputAdded(before, db, d, r, rules, artifacts, i, k, created, known, max, now);
        var reply := store.AddAgentTask(d.task(r, key), r, key, max, now);
        known := known + {key};
        if reply != Done { continue; }
        created := created + [d.task(r, key)];
      }
      RuleServed(before, store.Content(), d, r, rules, artifacts, i, created, known);
    }
    ReconcilingEnds(before, store.Content(), d, r, rules, artifacts, created, known);
  }

  /** The state of a reconciliation that has dealt with `i` rules and with `k` inputs of the next. */
  ghost predicate Reconciling(
    before: Db, db: Db, d: Digests, r: Id, rules: seq<Rule>, artifacts: seq<Artifact>, i: nat, k: nat,
    created: seq<Id>, known: set<Id>)
  {
    && i <= |rules| && (i < |rules| ==> k <= |InputsOf(rules[i], artifacts)|) && (i == |rules| ==> k == 0)
    && Injective(d) && NamedByDigest(db, d) && Grown(before, db, created)
    && (forall key :: key in known ==> Known(db, r, key))
    && AllServed(db, d, r, rules[..i], artifacts)
    && (forall m :: 0 <= m < k ==> Served(db, d, r, rules[i], InputsOf(rules[i], artifacts)[m], artifacts))
    && (forall id :: id in created ==> WasMissing(before, d, r, rules, artifacts, id))
  }

  lemma ReconcilingStarts(before: Db, d: Digests, r: Id, rules: seq<Rule>, artifacts: seq<Artifact>, known: set<Id>)
    requires Injective(d) && NamedByDigest(before, d) && forall key :: key in known ==> Known(before, r, key)
    ensures Reconciling(before, before, d, r, rules, artifacts, 0, 0, [], known)
  {
  }

  lemma ReconcilingEnds(
    before: Db, db: Db, d: Digests, r: Id, rules: seq<Rule>, artifacts: seq<Artifact>, created: seq<Id>, known: set<Id>)
    requires Reconciling(before, db, d, r, rules, artifacts, |rules|, 0, created, known)
    ensures NamedByDigest(db, d) && Grown(before, db, created) && AllServed(db, d, r, rules, artifacts)
    ensures forall id :: id in created ==> WasMissing(before, d, r, rules, artifacts, id)
  {
    assert rules[..|rules|] == rules;
  }

  /** Where the next input is served already there is nothing to do. */
  lemma InputServed(
    before: Db, db: Db, d: Digests, r: Id, rules: seq<Rule>, artifacts: seq<Artifact>, i: nat, k: nat,
    created: seq<Id>, known: set<Id>)
    requires Reconciling(before, db, d, r, rules, artifacts, i, k, created, known)
    requires i < |rules| && k < |InputsOf(rules[i], artifacts)|
    ensures var a := InputsOf(rules[i], artifacts)[k];
            KeyOf(d, rules[i], a) in known || Satisfied(rules[i], a, artifacts) ==>
              Reconciling(before, db, d, r, rules, artifacts, i, k + 1, created, known)
  {
    hide Grown;
    hide AllServed;
    hide WasMissing;
    hide NamedByDigest;
    hide InputsOf;
    hide Satisfied;
  }

  lemma KeepsNames(
    before: Db, db: Db, d: Digests, r: Id, rules: seq<Rule>, artifacts: seq<Artifact>, i: nat, k: nat,
    created: seq<Id>, known: set<Id>)
    requires Reconciling(before, db, d, r, rules, artifacts, i, k, created, known)
    ensures NamedByDigest(db, d)
  {
  }

  /** Adding what the next input asks for, which is neither known here nor satisfied. */
  lemma InputAdded(
    before: Db, db: Db, d: Digests, r: Id, rules: seq<Rule>, artifacts: seq<Artifact>, i: nat, k: nat,
    created: seq<Id>, known: set<Id>, max: int, now: int)
    requires Reconciling(before, db, d, r, rules, artifacts, i, k, created, known) && r in db.runs
    requires i < |rules| && k < |InputsOf(rules[i], artifacts)|
    requires !Satisfied(rules[i], InputsOf(rules[i], artifacts)[k], artifacts)
    ensures var key := KeyOf(d, rules[i], InputsOf(rules[i], artifacts)[k]);
            var tx := AddAgentTask(db, d.task(r, key), r, key, max, now);
            Reconciling(before, tx.db, d, r, rules, artifacts, i, k + 1,
                        if tx.reply == Done then created + [d.task(r, key)] else created, known + {key})
  {
    hide Grown;
    hide AllServed;
    hide Served;
    hide WasMissing;
    hide Known;
    hide NamedByDigest;
    hide AddAgentTask;
    hide InputsOf;
    var a := InputsOf(rules[i], artifacts)[k];
    var key := KeyOf(d, rules[i], a);
    AddEffect(db, d, r, key, max, now);
    if Known(db, r, key) {
      KnownServes(db, d, r, rules[i], a, artifacts);
    } else {
      var db' := AddAgentTask(db, d.task(r, key), r, key, max, now).db;
      GrowsByOne(before, db, db', created, d.task(r, key), NewTask(r, key, max, now));
      NewlyKnown(before, db, created, r, key);
      InputWasMissing(before, d, r, rules, artifacts, i, k);
      TasksGrow(db, db', d, r, rules[..i], artifacts);
      KnownServes(db', d, r, rules[i], a, artifacts);
      forall m | 0 <= m < k ensures Served(db', d, r, rules[i], InputsOf(rules[i], artifacts)[m], artifacts) {
        ServedStays(db, db', d, r, rules[i], InputsOf(rules[i], artifacts)[m], artifacts);
      }
      forall other | other in known ensures Known(db', r, other) { StaysKnown(db, db', r, other); }
    }
  }

  lemma KnownServes(db: Db, d: Digests, r: Id, rule: Rule, a: Artifact, artifacts: seq<Artifact>)
    requires Known(db, r, KeyOf(d, rule, a))
    ensures Served(db, d, r, rule, a, artifacts)
  {
  }

  lemma GrowsByOne(before: Db, db: Db, db': Db, created: seq<Id>, id: Id, t: AgentTask)
    requires Grown(before, db, created) && id !in db.agentTasks
    requires db' == db.(agentTasks := db.agentTasks[id := t])
    ensures Grown(before, db', created + [id])
  {
    assert forall o :: o in created + [id] <==> o in created || o == id;
  }

  lemma InputWasMissing(before: Db, d: Digests, r: Id, rules: seq<Rule>, artifacts: seq<Artifact>, i: nat, k: nat)
    requires i < |rules| && k < |InputsOf(rules[i], artifacts)|
    requires !Satisfied(rules[i], InputsOf(rules[i], artifacts)[k], artifacts)
    requires !Known(before, r, KeyOf(d, rules[i], InputsOf(rules[i], artifacts)[k]))
    ensures WasMissing(before, d, r, rules, artifacts, d.task(r, KeyOf(d, rules[i], InputsOf(rules[i], artifacts)[k])))
  {
    assert InputsOf(rules[i], artifacts)[k] in InputsOf(rules[i], artifacts);
    assert !Served(before, d, r, rules[i], InputsOf(rules[i], artifacts)[k], artifacts);
  }

  lemma NewlyKnown(before: Db, db: Db, created: seq<Id>, r: Id, key: Id)
    requires Grown(before, db, created) && !Known(db, r, key)
    ensures !Known(before, r, key)
  {
    if Known(before, r, key) { StaysKnown(before, db, r, key); }
  }

  lemma ServedStays(db: Db, db': Db, d: Digests, r: Id, rule: Rule, a: Artifact, artifacts: seq<Artifact>)
    requires Served(db, d, r, rule, a, artifacts)
    requires forall id :: id in db.agentTasks ==> id in db'.agentTasks && db'.agentTasks[id] == db.agentTasks[id]
    ensures Served(db', d, r, rule, a, artifacts)
  {
    if Known(db, r, KeyOf(d, rule, a)) { StaysKnown(db, db', r, KeyOf(d, rule, a)); }
  }

  lemma TasksGrow(db: Db, db': Db, d: Digests, r: Id, rules: seq<Rule>, artifacts: seq<Artifact>)
    requires AllServed(db, d, r, rules, artifacts)
    requires forall id :: id in db.agentTasks ==> id in db'.agentTasks && db'.agentTasks[id] == db.agentTasks[id]
    ensures AllServed(db', d, r, rules, artifacts)
  {
    forall i, a | 0 <= i < |rules| && a in InputsOf(rules[i], artifacts)
      ensures Served(db', d, r, rules[i], a, artifacts)
    {
      assert Served(db, d, r, rules[i], a, artifacts);
      ServedStays(db, db', d, r, rules[i], a, artifacts);
    }
  }

  lemma RuleServed(
    before: Db, db: Db, d: Digests, r: Id, rules: seq<Rule>, artifacts: seq<Artifact>, i: nat,
    created: seq<Id>, known: set<Id>)
    requires i < |rules|
    requires Reconciling(before, db, d, r, rules, artifacts, i, |InputsOf(rules[i], artifacts)|, created, known)
    ensures Reconciling(before, db, d, r, rules, artifacts, i + 1, 0, created, known)
  {
    forall j, a | 0 <= j < i + 1 && a in InputsOf(rules[j], artifacts)
      ensures Served(db, d, r, rules[..i + 1][j], a, artifacts)
    {
      if j < i {
        assert Served(db, d, r, rules[..i][j], a, artifacts);
      } else {
        var m :| 0 <= m < |InputsOf(rules[i], artifacts)| && InputsOf(rules[i], artifacts)[m] == a;
      }
    }
  }

  /** Where everything is served nothing is missing, so nothing can be created. */
  lemma NothingMissing(db: Db, d: Digests, r: Id, rules: seq<Rule>, artifacts: seq<Artifact>, id: Id)
    requires AllServed(db, d, r, rules, artifacts)
    ensures !WasMissing(db, d, r, rules, artifacts, id)
  {
    forall i, a | 0 <= i < |rules| && a in InputsOf(rules[i], artifacts)
      ensures Served(db, d, r, rules[i], a, artifacts)
    {
    }
  }

  // ---------------------------------------------------------------- once more

  /** Coordinators name the tasks they add by the digest. */
  predicate NamesTasks(a: Action, d: Digests) {
    a.DoAddTask? ==> a.taskId == d.task(a.runId, a.key)
  }

  lemma KnownStays(db: Db, a: Action, r: Id, key: Id)
    requires Known(db, r, key)
    ensures Known(Apply(db, a).db, r, key)
  {
    hide Apply;
    var id :| id in db.agentTasks && db.agentTasks[id].runId == r && db.agentTasks[id].key == key;
    AgentTaskHistory.TaskMoveEffect(db, a, id);
  }

  lemma NamesStay(db: Db, a: Action, d: Digests)
    requires NamedByDigest(db, d) && Injective(d) && NamesTasks(a, d)
    ensures NamedByDigest(Apply(db, a).db, d)
  {
    hide Apply;
    var after := Apply(db, a).db;
    forall r, key | d.task(r, key) in after.agentTasks
      ensures after.agentTasks[d.task(r, key)].runId == r && after.agentTasks[d.task(r, key)].key == key
    {
      if d.task(r, key) in db.agentTasks {
        AgentTaskHistory.TaskMoveEffect(db, a, d.task(r, key));
      } else {
        AgentTaskHistory.NewTaskIsPending(db, a, d.task(r, key));
      }
    }
  }

  lemma AllServedStays(db: Db, a: Action, d: Digests, r: Id, rules: seq<Rule>, artifacts: seq<Artifact>)
    requires AllServed(db, d, r, rules, artifacts)
    ensures AllServed(Apply(db, a).db, d, r, rules, artifacts)
  {
    hide Apply;
    hide Known;
    forall i, art | 0 <= i < |rules| && art in InputsOf(rules[i], artifacts)
      ensures Served(Apply(db, a).db, d, r, rules[i], art, artifacts)
    {
      assert Served(db, d, r, rules[i], art, artifacts);
      if Known(db, r, KeyOf(d, rules[i], art)) { KnownStays(db, a, r, KeyOf(d, rules[i], art)); }
    }
  }

  lemma RunStays(db: Db, a: Action, r: Id)
    requires Inv(db) && r in db.runs
    ensures r in Apply(db, a).db.runs
  {
    StoreGuarantees.RunKeepsTask(db, a, r);
  }

  /** The idempotency keys of the tasks of a run, as a coordinator reads them when it begins. */
  function KeysRead(db: Db, r: Id): set<Id> {
    set id | id in db.agentTasks && db.agentTasks[id].runId == r :: db.agentTasks[id].key
  }

  /**
   * A second reconciliation, which reads the tasks afresh - those the first one created
   * among them - creates nothing, whatever workers, runtimes and other coordinators did to
   * the store in between.
   */
  method ReconcileTwice(
    store: Store, d: Digests, r: Id, rules: seq<Rule>, artifacts: seq<Artifact>, read: set<Id>,
    between: seq<Action>, max: int, now: int)
    returns (first: seq<Id>, second: seq<Id>)
    requires store.Valid() && Injective(d) && NamedByDigest(store.Content(), d) && r in store.runs
    requires forall key :: key in read ==> Known(store.Content(), r, key)
    requires forall i :: 0 <= i < |between| ==> NamesTasks(between[i], d)
    modifies store
    ensures second == [] && AllServed(store.Content(), d, r, rules, artifacts)
    ensures between == [] ==> Grown(old(store.Content()), store.Content(), first)
  {
    hide Inv;
    hide Apply;
    hide AllServed;
    hide NamedByDigest;
    hide Injective;
    hide NamesTasks;
    first := Reconcile(store, d, r, rules, artifacts, read, max, now);
    ghost var after := store.Content();
    for i := 0 to |between|
      invariant store.Valid() && NamedByDigest(store.Content(), d) && r in store.runs
      invariant AllServed(store.Content(), d, r, rules, artifacts)
      invariant between == [] ==> store.Content() == after
    {
      NamesStay(store.Content(), between[i], d);
      AllServedStays(store.Content(), between[i], d, r, rules, artifacts);
      RunStays(store.Content(), between[i], r);
      var reply := store.Perform(between[i]);
    }
    var db := store.Content();
    second := Reconcile(store, d, r, rules, artifacts, KeysRead(db, r), max, now);
    assert second == [] || second[0] in second;
    if second != [] { NothingMissing(db, d, r, rules, artifacts, second[0]); }
    assert store.agentTasks == db.agentTasks;
  }

  // ---------------------------------------------------------------- concurrent coordinators

  lemma {:induction false} TaskStaysNamed(h: seq<Entry>, g: seq<Entry>, id: Id)
    requires History(h + g) && id in Now(h).agentTasks
    ensures id in Now(h + g).agentTasks
    ensures Now(h + g).agentTasks[id].runId == Now(h).agentTasks[id].runId
    ensures Now(h + g).agentTasks[id].key == Now(h).agentTasks[id].key
  {
    hide Apply;
    if g == [] {
      assert h + g == h;
    } else {
      var k := |g| - 1;
      StoreGuarantees.ContinuationStep(h, g);
      TaskStaysNamed(h, g[..k], id);
      AgentTaskHistory.TaskMoveEffect(Now(h + g[..k]), g[k].action, id);
    }
  }

  lemma AddedIsKnown(db: Db, a: Action)
    requires a.DoAddTask? && (Apply(db, a).reply == Done || Apply(db, a).reply.Duplicate?)
    ensures Known(Apply(db, a).db, a.runId, a.key)
  {
    var tx := Apply(db, a);
    if tx.reply == Done {
      assert tx.db.agentTasks[a.taskId].runId == a.runId && tx.db.agentTasks[a.taskId].key == a.key;
    }
  }

  /**
   * However many coordinators ask for the same task in whatever order, from the first answer
   * on there is exactly one task of that run and key.
   */
  lemma ExactlyOneTask(h: seq<Entry>, e: Entry, g: seq<Entry>)
    requires History(h + [e] + g) && e.action.DoAddTask? && (e.reply == Done || e.reply.Duplicate?)
    ensures var r, key, db := e.action.runId, e.action.key, Now(h + [e] + g);
            && Known(db, r, key)
            && forall a, b :: (a in db.agentTasks && db.agentTasks[a].runId == r && db.agentTasks[a].key == key &&
                               b in db.agentTasks && db.agentTasks[b].runId == r && db.agentTasks[b].key == key)
                              ==> a == b
  {
    hide Apply;
    var h' := h + [e];
    PrefixIsHistory(h' + g, |h'|);
    assert (h' + g)[..|h'|] == h';
    LastStep(h');
    assert h'[..|h'| - 1] == h;
    AddedIsKnown(Now(h), e.action);
    var id :| id in Now(h').agentTasks && Now(h').agentTasks[id].runId == e.action.runId &&
              Now(h').agentTasks[id].key == e.action.key;
    TaskStaysNamed(h', g, id);
    ReachableInv(h' + g);
  }
}
