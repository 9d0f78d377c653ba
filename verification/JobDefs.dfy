/** Saved job definitions: one trigger names at most one of them, over any run of saves and deletes. */
module JobDefs {
  import opened Common

  datatype JobDef = JobDef(
    id: string, name: string, product: string, testScope: string, server: string,
    actionKind: string, actionTarget: string, language: string, description: string,
    createdAt: real, updatedAt: real)

  datatype SaveResult = Created | Updated | DuplicateTrigger

  type Defs = map<string, JobDef>

  function Trigger(d: JobDef): (string, string, string) { (d.product, d.testScope, d.server) }

  // ---------------------------------------------------------------- validation

  const MAX_FIELD := 200

  /** The characters Python's `strip` removes. */
  predicate IsSpace(c: char) {
    var n := c as int;
    || 9 <= n <= 13 || 28 <= n <= 32 || n == 0x85 || n == 0xA0 || n == 0x1680 || 0x2000 <= n <= 0x200A
    || n == 0x2028 || n == 0x2029 || n == 0x202F || n == 0x205F || n == 0x3000
  }

  predicate Blank(s: string) { forall i :: 0 <= i < |s| ==> IsSpace(s[i]) }

  predicate FieldsFit(d: JobDef) {
    && |d.id| <= MAX_FIELD && |d.name| <= MAX_FIELD && |d.product| <= MAX_FIELD && |d.testScope| <= MAX_FIELD
    && |d.server| <= MAX_FIELD && |d.actionTarget| <= MAX_FIELD && |d.description| <= MAX_FIELD
  }

  function ValidateJobDef(d: JobDef): Result<()> {
    if d.id == "" then StoreError("a job definition needs an id")
    else if Blank(d.name) then StoreError("a job definition needs a name")
    else if d.actionKind != "gh-action" && d.actionKind != "test-server" then StoreError("action_kind")
    else if Blank(d.actionTarget) then StoreError("a job definition needs an action target")
    else if d.language != "python" && d.language != "node" then StoreError("language")
    else if !FieldsFit(d) then StoreError("longer than 200 characters")
    else if Blank(d.product) then StoreError("a job definition needs a product")
    else if Blank(d.testScope) then StoreError("a job definition needs a test_scope")
    else if Blank(d.server) then StoreError("a job definition needs a server")
    else Ok(())
  }

  /** Every code point that Unicode or ASCII counts as white space. */
  const WHITE_SPACE: set<int> := {
    9, 10, 11, 12, 13, 28, 29, 30, 31, 32, 133, 160, 5760, 8192, 8193, 8194, 8195, 8196, 8197, 8198, 8199, 8200,
    8201, 8202, 8232, 8233, 8239, 8287, 12288}

  /** Something other than white space. */
  predicate Says(s: string) { exists i :: 0 <= i < |s| && s[i] as int !in WHITE_SPACE }

  lemma SpacesAreWhite(c: char)
    ensures IsSpace(c) <==> c as int in WHITE_SPACE
  {
  }

  lemma BlankSaysNothing(s: string)
    ensures Blank(s) <==> !Says(s)
  {
    forall i | 0 <= i < |s| ensures IsSpace(s[i]) <==> s[i] as int in WHITE_SPACE {
      SpacesAreWhite(s[i]);
    }
  }

  /** Which definitions are let in: each part there, each choice one of two, each field within 200 characters. */
  lemma ValidDefsExactly(d: JobDef)
    ensures ValidateJobDef(d).Ok? <==>
              && d.id != "" && Says(d.name) && Says(d.actionTarget)
              && Says(d.product) && Says(d.testScope) && Says(d.server)
              && (d.actionKind == "gh-action" || d.actionKind == "test-server")
              && (d.language == "python" || d.language == "node")
              && |d.id| <= 200 && |d.name| <= 200 && |d.product| <= 200 && |d.testScope| <= 200
              && |d.server| <= 200 && |d.actionTarget| <= 200 && |d.description| <= 200
  {
    BlankSaysNothing(d.name);
    BlankSaysNothing(d.actionTarget);
    BlankSaysNothing(d.product);
    BlankSaysNothing(d.testScope);
    BlankSaysNothing(d.server);
  }

  // ---------------------------------------------------------------- saving and deleting

  /** Another definition already answers to this trigger. */
  predicate TriggerTaken(defs: Defs, d: JobDef) {
    exists id :: id in defs && id != d.id && Trigger(defs[id]) == Trigger(d)
  }

  function SaveAnswer(defs: Defs, d: JobDef): Result<SaveResult> {
    match ValidateJobDef(d)
    case StoreError(m) => StoreError(m)
    case Ok(_) => Ok(if TriggerTaken(defs, d) then DuplicateTrigger else if d.id in defs then Updated else Created)
  }

  function AfterSave(defs: Defs, d: JobDef, now: real): Defs {
    match SaveAnswer(defs, d)
    case Ok(Created) => defs[d.id := d.(createdAt := now, updatedAt := now)]
    case Ok(Updated) => defs[d.id := d.(createdAt := defs[d.id].createdAt, updatedAt := now)]
    case _ => defs
  }

  predicate Consistent(defs: Defs) {
    && (forall id :: id in defs ==> defs[id].id == id)
    && forall a, b :: a in defs && b in defs && Trigger(defs[a]) == Trigger(defs[b]) ==> a == b
  }

  /** The two say the same in everything a person writes; the times are the store's own. */
  predicate Agree(x: JobDef, d: JobDef) {
    && x.id == d.id && x.name == d.name && x.description == d.description
    && x.product == d.product && x.testScope == d.testScope && x.server == d.server
    && x.actionKind == d.actionKind && x.actionTarget == d.actionTarget && x.language == d.language
  }

  class JobDefStore {
    var defs: Defs

    predicate Valid() reads this { Consistent(defs) }

    constructor ()
      ensures Valid() && defs == map[]
    {
      defs := map[];
    }

    /**
     An insert that turns into an update when the id is there; the unique index on the trigger refuses
     it when the row it would leave clashes with another.
     */
    method Save(d: JobDef, now: real) returns (answer: Result<SaveResult>)
      requires Valid()
      modifies this
      ensures Valid()
      ensures answer == SaveAnswer(old(defs), d)
      ensures defs == AfterSave(old(defs), d, now)
      ensures answer == Ok(Created) || answer == Ok(Updated) ==>
                && d.id in defs && Agree(defs[d.id], d) && defs[d.id].updatedAt == now
                && defs[d.id].createdAt == (if d.id in old(defs) then old(defs)[d.id].createdAt else now)
    {
      var valid := ValidateJobDef(d);
      if valid.StoreError? {
        return StoreError(valid.message);
      }
      var existing := d.id in defs;
      var written := if existing
                     then defs[d.id].(name := d.name, description := d.description, product := d.product,
                            testScope := d.testScope, server := d.server, actionKind := d.actionKind,
                            actionTarget := d.actionTarget, language := d.language, updatedAt := now)
                     else d.(createdAt := now, updatedAt := now);
      if exists id :: id in defs && id != d.id && Trigger(defs[id]) == Trigger(written) {
        return Ok(DuplicateTrigger);
      }
      defs := defs[d.id := written];
      answer := Ok(if existing then Updated else Created);
    }

    method Delete(id: string) returns (removed: bool)
      requires Valid()
      modifies this
      ensures Valid()
      ensures removed == (id in old(defs)) && defs == old(defs) - {id}
    {
      removed := id in defs;
      defs := defs - {id};
    }

    /** The definition with exactly this trigger, if there is one; there are never two to choose from. */
    method Lookup(product: string, testScope: string, server: string) returns (found: Option<JobDef>)
      requires Valid()
      ensures found == Find(defs, (product, testScope, server))
    {
      var matching := set id | id in defs && Trigger(defs[id]) == (product, testScope, server);
      assert forall id :: id in defs && Trigger(defs[id]) == (product, testScope, server) ==> id in matching;
      if matching == {} {
        found := None;
      } else {
        var id :| id in matching;
        found := Some(defs[id]);
        FoundIsIt(defs, id);
      }
    }
  }

  ghost function Find(defs: Defs, trigger: (string, string, string)): Option<JobDef> {
    if exists id :: id in defs && Trigger(defs[id]) == trigger
    then var id :| id in defs && Trigger(defs[id]) == trigger; Some(defs[id])
    else None
  }

  /** Looking up any stored definition's own trigger finds that definition. */
  lemma FoundIsIt(defs: Defs, id: string)
    requires Consistent(defs) && id in defs
    ensures Find(defs, Trigger(defs[id])) == Some(defs[id])
  {
  }

  // ---------------------------------------------------------------- runs

  datatype Edit = Saved(d: JobDef, now: real, answer: Result<SaveResult>) | Deleted(id: string)

  predicate EditStep(defs: Defs, e: Edit, defs': Defs) {
    match e
    case Saved(d, now, answer) => answer == SaveAnswer(defs, d) && defs' == AfterSave(defs, d, now)
    case Deleted(id) => defs' == defs - {id}
  }

  predicate EditAt(es: seq<Edit>, ds: seq<Defs>, i: int)
    requires 0 <= i < |es| && |ds| == |es| + 1
  {
    EditStep(ds[i], es[i], ds[i + 1])
  }

  predicate IsEditing(es: seq<Edit>, ds: seq<Defs>) {
    && |ds| == |es| + 1 && ds[0] == map[]
    && forall i :: 0 <= i < |es| ==> EditAt(es, ds, i)
  }

  lemma EditKeepsConsistency(defs: Defs, e: Edit, defs': Defs)
    requires Consistent(defs) && EditStep(defs, e, defs')
    ensures Consistent(defs')
  {
    if e.Saved? && SaveAnswer(defs, e.d).Ok? && !TriggerTaken(defs, e.d) {
      assert Trigger(defs'[e.d.id]) == Trigger(e.d);
      assert forall id :: id in defs && Trigger(defs[id]) == Trigger(e.d) ==> id == e.d.id;
    }
  }

  /** Two saves can never leave two definitions answering to one trigger, whatever came before. */
  lemma {:induction false} TriggersStayUnique(es: seq<Edit>, ds: seq<Defs>, n: nat)
    requires IsEditing(es, ds) && n <= |es|
    ensures Consistent(ds[n])
    decreases n
  {
    if n > 0 {
      TriggersStayUnique(es, ds, n - 1);
      assert EditAt(es, ds, n - 1);
      EditKeepsConsistency(ds[n - 1], es[n - 1], ds[n]);
    }
  }

  /** A refused save changes nothing, and is refused exactly because another definition has the trigger. */
  lemma RefusalsChangeNothing(es: seq<Edit>, ds: seq<Defs>, n: nat)
    requires IsEditing(es, ds) && n < |es| && es[n].Saved? && ValidateJobDef(es[n].d).Ok?
    ensures es[n].answer == Ok(DuplicateTrigger) <==>
              Find(ds[n], Trigger(es[n].d)).Some? && Find(ds[n], Trigger(es[n].d)).value.id != es[n].d.id
    ensures es[n].answer == Ok(DuplicateTrigger) ==> ds[n + 1] == ds[n]
    ensures es[n].answer != Ok(DuplicateTrigger) ==>
              es[n].d.id in ds[n + 1] && Find(ds[n + 1], Trigger(es[n].d)) == Some(ds[n + 1][es[n].d.id])
  {
    TriggersStayUnique(es, ds, n);
    TriggersStayUnique(es, ds, n + 1);
    assert EditAt(es, ds, n);
    var d := es[n].d;
    if id :| id in ds[n] && Trigger(ds[n][id]) == Trigger(d) {
      FoundIsIt(ds[n], id);
    }
    if es[n].answer != Ok(DuplicateTrigger) {
      FoundIsIt(ds[n + 1], d.id);
    }
  }

  predicate Took(e: Edit) { e.Saved? && (e.answer == Ok(Created) || e.answer == Ok(Updated)) }

  /**
   A save that is taken: its trigger finds exactly what was saved, stamped with the time of the save and,
   if it is new, of its creation; no other definition is touched.
   */
  lemma SavesAreFoundAsSaved(es: seq<Edit>, ds: seq<Defs>, n: nat)
    requires IsEditing(es, ds) && n < |es| && Took(es[n])
    ensures var d, now := es[n].d, es[n].now;
            var found := Find(ds[n + 1], (d.product, d.testScope, d.server));
            && found.Some? && Agree(found.value, d) && found.value.updatedAt == now
            && (es[n].answer == Ok(Created) <==> d.id !in ds[n])
            && found.value.createdAt == (if d.id in ds[n] then ds[n][d.id].createdAt else now)
            && ds[n + 1].Keys == ds[n].Keys + {d.id}
            && forall id :: id in ds[n] && id != d.id ==> ds[n + 1][id] == ds[n][id]
  {
    TriggersStayUnique(es, ds, n + 1);
    assert EditAt(es, ds, n);
    FoundIsIt(ds[n + 1], es[n].d.id);
  }

  /** This edit is another accepted save, or the deletion, of the definition. */
  predicate Edits(e: Edit, id: string) { (Took(e) && e.d.id == id) || e == Deleted(id) }

  lemma {:induction false} UneditedDefsStay(es: seq<Edit>, ds: seq<Defs>, m: nat, n: nat, id: string)
    requires IsEditing(es, ds) && m <= n <= |es| && forall i :: m <= i < n ==> !Edits(es[i], id)
    ensures id in ds[m] <==> id in ds[n]
    ensures id in ds[m] ==> ds[n][id] == ds[m][id]
    decreases n
  {
    if m < n {
      UneditedDefsStay(es, ds, m, n - 1, id);
      assert EditAt(es, ds, n - 1);
    }
  }

  /** Until it is saved again or deleted, a definition is what a lookup of its trigger finds. */
  lemma LookupFindsTheLastSave(es: seq<Edit>, ds: seq<Defs>, m: nat, n: nat)
    requires IsEditing(es, ds) && m < n <= |es| && Took(es[m])
    requires forall i :: m < i < n ==> !Edits(es[i], es[m].d.id)
    ensures var d := es[m].d;
            var found := Find(ds[n], (d.product, d.testScope, d.server));
            found.Some? && Agree(found.value, d) && found.value.updatedAt == es[m].now
  {
    var d := es[m].d;
    SavesAreFoundAsSaved(es, ds, m);
    TriggersStayUnique(es, ds, m + 1);
    TriggersStayUnique(es, ds, n);
    assert EditAt(es, ds, m);
    FoundIsIt(ds[m + 1], d.id);
    UneditedDefsStay(es, ds, m + 1, n, d.id);
    FoundIsIt(ds[n], d.id);
  }

  /** Moving a definition to another trigger frees the one it had: the next definition to want it gets it. */
  lemma MovingFreesTheOldTrigger(es: seq<Edit>, ds: seq<Defs>, n: nat, d: JobDef)
    requires IsEditing(es, ds) && n < |es| && es[n].Saved? && es[n].answer == Ok(Updated)
    requires es[n].d.id in ds[n]
    requires var left := Trigger(ds[n][es[n].d.id]); Trigger(es[n].d) != left && Trigger(d) == left
    requires ValidateJobDef(d).Ok?
    ensures Find(ds[n + 1], Trigger(d)).None?
    ensures SaveAnswer(ds[n + 1], d) == Ok(if d.id in ds[n + 1] then Updated else Created)
  {
    TriggersStayUnique(es, ds, n);
    assert EditAt(es, ds, n);
    var moved := es[n].d.id;
    var after := ds[n + 1];
    assert forall id :: id in ds[n] && Trigger(ds[n][id]) == Trigger(d) ==> id == moved;
    assert forall id :: id in after ==> Trigger(after[id]) != Trigger(d);
  }

  lemma FindAfterDelete(defs: Defs, id: string, trigger: (string, string, string))
    requires Consistent(defs)
    ensures Find(defs - {id}, trigger)
            == if id in defs && Trigger(defs[id]) == trigger then None else Find(defs, trigger)
  {
    var after := defs - {id};
    if k :| k in defs && Trigger(defs[k]) == trigger {
      FoundIsIt(defs, k);
      if k != id {
        assert after[k] == defs[k];
        FoundIsIt(after, k);
      }
    }
  }

  /**
   Deleting a definition takes away what its own trigger finds and nothing else, and frees the trigger:
   the next definition to want it gets it. Deleting what is not there changes nothing.
   */
  lemma DeletingFreesTheTrigger(
    es: seq<Edit>, ds: seq<Defs>, n: nat, id: string, trigger: (string, string, string), d: JobDef)
    requires IsEditing(es, ds) && n < |es| && es[n] == Deleted(id) && ValidateJobDef(d).Ok?
    ensures id !in ds[n] ==> ds[n + 1] == ds[n]
    ensures Find(ds[n + 1], trigger)
            == if id in ds[n] && Trigger(ds[n][id]) == trigger then None else Find(ds[n], trigger)
    ensures id in ds[n] && Trigger(ds[n][id]) == Trigger(d) ==>
              SaveAnswer(ds[n + 1], d) == Ok(if d.id in ds[n + 1] then Updated else Created)
  {
    TriggersStayUnique(es, ds, n);
    assert EditAt(es, ds, n);
    FindAfterDelete(ds[n], id, trigger);
  }

  /** A definition keeps the time it was first saved at, through any number of updates. */
  lemma {:induction false} CreationTimeIsKept(es: seq<Edit>, ds: seq<Defs>, m: nat, n: nat, id: string)
    requires IsEditing(es, ds) && m < n <= |es|
    requires es[m].Saved? && es[m].d.id == id && es[m].answer == Ok(Created)
    requires forall i :: m < i < n ==> es[i] != Deleted(id)
    ensures id in ds[n] && ds[n][id].createdAt == es[m].now
    decreases n
  {
    assert EditAt(es, ds, n - 1);
    if n > m + 1 {
      CreationTimeIsKept(es, ds, m, n - 1, id);
      assert es[n - 1] != Deleted(id);
    }
  }
}
