/** An owner many-to-many relation in MongoDB, between two collections: ids are stored on both sides and every
    insert, update and delete of one side is followed by updates of documents on the other. */
module MongoRelations {
  import opened Histories
  import opened Prelude

  type Id = nat

  /** A collection, reduced to the relation's array in each document; a missing array counts as empty. */
  type Documents = map<Id, seq<Id>>

  /** `owners` hold the relation's field, `targets` the inverse property. */
  datatype State = State(owners: Documents, targets: Documents)

  // ---- the update operators ----

  function Pull(list: seq<Id>, id: Id): (r: seq<Id>)
    ensures forall x :: x in r <==> x in list && x != id
  {
    if list == [] then [] else (if list[0] == id then [] else [list[0]]) + Pull(list[1..], id)
  }

  function AddToSet(list: seq<Id>, id: Id): (r: seq<Id>)
    ensures forall x :: x in r <==> x in list || x == id
  {
    if id in list then list else list + [id]
  }

  /** What the two loops over removed and added ids leave: each document named only before loses `record`, each
      named only after gains it; ids that name no document have no effect. */
  function UpdateInverse(docs: Documents, record: Id, oldIds: seq<Id>, newIds: seq<Id>): Documents {
    map d | d in docs ::
      if d in oldIds && d !in newIds then Pull(docs[d], record)
      else if d in newIds && d !in oldIds then AddToSet(docs[d], record)
      else docs[d]
  }

  function PullAll(docs: Documents, record: Id, ids: seq<Id>): Documents {
    map d | d in docs :: if d in ids then Pull(docs[d], record) else docs[d]
  }

  function AddAll(docs: Documents, record: Id, ids: seq<Id>): Documents {
    map d | d in docs :: if d in ids then AddToSet(docs[d], record) else docs[d]
  }

  class Collection {
    var docs: Documents

    constructor ()
      ensures docs == map[]
    {
      docs := map[];
    }

    method PullFrom(id: Id, record: Id)
      modifies this
      ensures docs == if id in old(docs) then old(docs)[id := Pull(old(docs)[id], record)] else old(docs)
    {
      if id in docs {
        docs := docs[id := Pull(docs[id], record)];
      }
    }

    method AddTo(id: Id, record: Id)
      modifies this
      ensures docs == if id in old(docs) then old(docs)[id := AddToSet(old(docs)[id], record)] else old(docs)
    {
      if id in docs {
        docs := docs[id := AddToSet(docs[id], record)];
      }
    }

    method PullEverywhere(record: Id, ids: seq<Id>)
      modifies this
      ensures docs == PullAll(old(docs), record, ids)
    {
      hide PullAll, Pull;
      PullNone(docs, record);
      for i := 0 to |ids|
        invariant docs == PullAll(old(docs), record, ids[..i])
      {
        PullTwice(old(docs), record, ids[..i], ids[i]);
        assert ids[..i + 1] == ids[..i] + [ids[i]];
        PullFrom(ids[i], record);
      }
      assert ids[..|ids|] == ids;
    }

    method AddEverywhere(record: Id, ids: seq<Id>)
      modifies this
      ensures docs == AddAll(old(docs), record, ids)
    {
      hide AddAll, AddToSet;
      AddNone(docs, record);
      for i := 0 to |ids|
        invariant docs == AddAll(old(docs), record, ids[..i])
      {
        AddTwice(old(docs), record, ids[..i], ids[i]);
        assert ids[..i + 1] == ids[..i] + [ids[i]];
        AddTo(ids[i], record);
      }
      assert ids[..|ids|] == ids;
    }

    /** `updateInverseRelationsOnUpdate` for a many-to-many relation. */
    method UpdateInverseRelations(record: Id, oldIds: seq<Id>, newIds: seq<Id>)
      modifies this
      ensures docs == UpdateInverse(old(docs), record, oldIds, newIds)
    {
      var removed := Without(oldIds, newIds);
      var added := Without(newIds, oldIds);
      PullEverywhere(record, removed);
      AddEverywhere(record, added);
    }
  }

  function Without(ids: seq<Id>, others: seq<Id>): (r: seq<Id>)
    ensures forall x :: x in r <==> x in ids && x !in others
  {
    if ids == [] then [] else (if ids[0] in others then [] else [ids[0]]) + Without(ids[1..], others)
  }

  lemma PullNone(docs: Documents, record: Id)
    ensures PullAll(docs, record, []) == docs
  {
  }

  lemma AddNone(docs: Documents, record: Id)
    ensures AddAll(docs, record, []) == docs
  {
  }

  lemma AddTwice(docs: Documents, record: Id, ids: seq<Id>, id: Id)
    ensures var added := AddAll(docs, record, ids);
            AddAll(docs, record, ids + [id]) ==
            if id in added then added[id := AddToSet(added[id], record)] else added
  {
  }

  lemma PullTwice(docs: Documents, record: Id, ids: seq<Id>, id: Id)
    ensures var pulled := PullAll(docs, record, ids);
            PullAll(docs, record, ids + [id]) ==
            if id in pulled then pulled[id := Pull(pulled[id], record)] else pulled
  {
    if id in docs {
      PullAbsent(Pull(docs[id], record), record);
    }
  }

  // ---- the operations ----

  datatype Operation =
    | InsertOwner(id: Id, ids: seq<Id>)
    | UpdateOwner(id: Id, field: Option<seq<Id>>)
    | DeleteOwner(id: Id)
    | InsertTarget(id: Id, ids: seq<Id>)
    | UpdateTarget(id: Id, inverse: Option<seq<Id>>)
    | DeleteTarget(id: Id)

  function Stored(docs: Documents, id: Id): seq<Id> {
    if id in docs then docs[id] else []
  }

  /** An insert is given a new id by the database. The inverse property is stripped from what is written,
      but not from what the other side is told. */
  ghost function Apply(s: State, op: Operation): State {
    match op
    case InsertOwner(id, ids) => State(s.owners[id := ids], UpdateInverse(s.targets, id, [], ids))
    case UpdateOwner(id, None) => s
    case UpdateOwner(id, Some(ids)) =>
      State(if id in s.owners then s.owners[id := ids] else s.owners,
            UpdateInverse(s.targets, id, Stored(s.owners, id), ids))
    case DeleteOwner(id) =>
      if id in s.owners then State(s.owners - {id}, Cleaned(s.targets, id, s.owners[id])) else s
    case InsertTarget(id, ids) => State(UpdateInverse(s.owners, id, [], ids), s.targets[id := []])
    case UpdateTarget(id, None) => s
    case UpdateTarget(id, Some(ids)) => State(UpdateInverse(s.owners, id, Stored(s.targets, id), ids), s.targets)
    case DeleteTarget(id) =>
      if id in s.targets then State(Cleaned(s.owners, id, s.targets[id]), s.targets - {id}) else s
  }

  function Cleaned(docs: Documents, record: Id, stored: seq<Id>): Documents {
    map d | d in docs :: if stored == [] || d in stored then Pull(docs[d], record) else docs[d]
  }

  /** The service over its two collections. */
  class MongoService {
    const owners: Collection
    const targets: Collection

    constructor ()
      ensures fresh(owners) && fresh(targets) && owners != targets && View() == State(map[], map[])
    {
      owners := new Collection();
      targets := new Collection();
    }

    ghost function View(): State
      reads owners, targets
    {
      State(owners.docs, targets.docs)
    }

    method InsertOneOwner(id: Id, ids: seq<Id>)
      requires owners != targets && id !in owners.docs
      modifies owners, targets
      ensures View() == Apply(old(View()), InsertOwner(id, ids)) && owners.docs == old(owners.docs)[id := ids]
    {
      owners.docs := owners.docs[id := ids];
      targets.UpdateInverseRelations(id, [], ids);
    }

    method UpdateOneOwner(id: Id, field: Option<seq<Id>>)
      requires owners != targets
      modifies owners, targets
      ensures View() == Apply(old(View()), UpdateOwner(id, field))
    {
      var oldIds := Stored(owners.docs, id);
      if field.Some? && id in owners.docs {
        owners.docs := owners.docs[id := field.value];
      }
      if field.Some? {
        targets.UpdateInverseRelations(id, oldIds, field.value);
      }
    }

    method InsertOneTarget(id: Id, ids: seq<Id>)
      requires owners != targets && id !in targets.docs
      modifies owners, targets
      ensures View() == Apply(old(View()), InsertTarget(id, ids))
    {
      targets.docs := targets.docs[id := []];
      owners.UpdateInverseRelations(id, [], ids);
    }

    method UpdateOneTarget(id: Id, inverse: Option<seq<Id>>)
      requires owners != targets
      modifies owners, targets
      ensures View() == Apply(old(View()), UpdateTarget(id, inverse))
    {
      var oldIds := Stored(targets.docs, id);
      if inverse.Some? {
        owners.UpdateInverseRelations(id, oldIds, inverse.value);
      }
    }

    method DeleteOneOwner(id: Id) returns (deleted: bool)
      requires owners != targets
      modifies owners, targets
      ensures View() == Apply(old(View()), DeleteOwner(id)) && (deleted <==> id in old(owners.docs))
      ensures owners.docs == old(owners.docs) - {id}
    {
      if id !in owners.docs {
        return false;
      }
      Cleanup(targets, id, owners.docs[id]);
      owners.docs := owners.docs - {id};
      return true;
    }

    method DeleteOneTarget(id: Id) returns (deleted: bool)
      requires owners != targets
      modifies owners, targets
      ensures View() == Apply(old(View()), DeleteTarget(id)) && (deleted <==> id in old(targets.docs))
      ensures targets.docs == old(targets.docs) - {id}
    {
      if id !in targets.docs {
        return false;
      }
      Cleanup(owners, id, targets.docs[id]);
      targets.docs := targets.docs - {id};
      return true;
    }
  }

  /** `cleanupInverseRelationsOnDelete` for a many-to-many relation. */
  method Cleanup(other: Collection, record: Id, stored: seq<Id>)
    modifies other
    ensures other.docs == Cleaned(old(other.docs), record, stored)
  {
    var ids := stored;
    if stored == [] {
      ids := Find(other, record);
    }
    other.PullEverywhere(record, ids);
    forall d | d in old(other.docs) && record !in old(other.docs)[d]
      ensures Pull(old(other.docs)[d], record) == old(other.docs)[d]
    {
      PullAbsent(old(other.docs)[d], record);
    }
  }

  lemma {:induction false} PullAbsent(list: seq<Id>, id: Id)
    requires id !in list
    ensures Pull(list, id) == list
  {
    if list != [] {
      PullAbsent(list[1..], id);
    }
  }

  method Find(other: Collection, record: Id) returns (ids: seq<Id>)
    ensures forall d :: d in ids <==> d in other.docs && record in other.docs[d]
  {
    ids := [];
    var left := other.docs.Keys;
    while left != {}
      invariant left <= other.docs.Keys
      invariant forall d :: d in ids <==> d in other.docs && d !in left && record in other.docs[d]
      decreases |left|
    {
      var d :| d in left;
      left := left - {d};
      if record in other.docs[d] {
        ids := ids + [d];
      }
    }
  }

  // ---- both sides agree ----

  /** Every id stored on one side names a document of the other side that stores the way back. */
  ghost predicate Mutual(s: State) {
    && (forall o, t :: o in s.owners && t in s.owners[o] ==> t in s.targets && o in s.targets[t])
    && (forall t, o :: t in s.targets && o in s.targets[t] ==> o in s.owners && t in s.owners[o])
  }

  predicate AllIn(ids: seq<Id>, docs: Documents) {
    forall x :: x in ids ==> x in docs
  }

  predicate NoneIn(ids: seq<Id>, docs: Documents) {
    forall x :: x in ids ==> x !in docs
  }

  /** What an operation must be given: owner ids that exist, an owner that exists, and on the inverse side, whose
      own array is never written, nothing that would change which owners refer to it. */
  predicate Guard(s: State, op: Operation) {
    match op
    case InsertOwner(_, ids) => AllIn(ids, s.targets)
    case UpdateOwner(id, Some(ids)) => if id in s.owners then AllIn(ids, s.targets) else NoneIn(ids, s.targets)
    case InsertTarget(_, ids) => NoneIn(ids, s.owners)
    case UpdateTarget(id, Some(ids)) => forall o :: o in s.owners ==> (o in ids <==> o in Stored(s.targets, id))
    case _ => true
  }

  predicate NewId(s: State, op: Operation) {
    (op.InsertOwner? ==> op.id !in s.owners) && (op.InsertTarget? ==> op.id !in s.targets)
  }

  /** Which records a document stores after its side was told. */
  lemma InUpdated(docs: Documents, record: Id, oldIds: seq<Id>, newIds: seq<Id>)
    ensures UpdateInverse(docs, record, oldIds, newIds).Keys == docs.Keys
    ensures forall d, x :: d in docs && x != record ==> (x in UpdateInverse(docs, record, oldIds, newIds)[d] <==> x in docs[d])
    ensures forall d :: d in docs ==>
              (record in UpdateInverse(docs, record, oldIds, newIds)[d] <==>
                 if d in newIds then d !in oldIds || record in docs[d] else d !in oldIds && record in docs[d])
  {
  }

  /** Telling the targets about an owner's new ids, once the owner stores them. */
  lemma OwnerToldIff(s: State, id: Id, ids: seq<Id>)
    requires Mutual(s)
    ensures var s' := State(s.owners[id := ids], UpdateInverse(s.targets, id, Stored(s.owners, id), ids));
            Mutual(s') <==> AllIn(ids, s.targets)
  {
    hide UpdateInverse;
    var oldIds := Stored(s.owners, id);
    InUpdated(s.targets, id, oldIds, ids);
    var s' := State(s.owners[id := ids], UpdateInverse(s.targets, id, oldIds, ids));
    assert forall t :: t in s.targets ==> (t in oldIds <==> id in s.targets[t]);
    if AllIn(ids, s.targets) {
      forall o, t | o in s'.owners && t in s'.owners[o] ensures t in s'.targets && o in s'.targets[t] {
      }
      forall t, o | t in s'.targets && o in s'.targets[t] ensures o in s'.owners && t in s'.owners[o] {
      }
    }
    if Mutual(s') {
      forall x | x in ids ensures x in s.targets {
        assert x in s'.owners[id];
      }
    }
  }

  /** Telling the other side about a record that its own side does not store. */
  lemma AbsentToldIff(owners: Documents, targets: Documents, id: Id, ids: seq<Id>)
    requires Mutual(State(owners, targets)) && id !in owners
    ensures Mutual(State(owners, UpdateInverse(targets, id, [], ids))) <==> NoneIn(ids, targets)
  {
    hide UpdateInverse;
    InUpdated(targets, id, [], ids);
    var told := UpdateInverse(targets, id, [], ids);
    var s := State(owners, targets);
    var s' := State(owners, told);
    assert forall x :: x in ids && x in targets ==> id in told[x];
    if NoneIn(ids, targets) {
      forall o, t | o in owners && t in owners[o] ensures t in told && o in told[t] {
      }
      forall t, o | t in told && o in told[t] ensures o in owners && t in owners[o] {
        assert o in targets[t];
      }
    }
  }

  lemma Mirror(s: State)
    ensures Mutual(s) <==> Mutual(State(s.targets, s.owners))
  {
  }

  lemma InsertTargetIff(s: State, id: Id, ids: seq<Id>)
    requires Mutual(s) && id !in s.targets
    ensures Mutual(Apply(s, InsertTarget(id, ids))) <==> NoneIn(ids, s.owners)
  {
    hide UpdateInverse, Mutual;
    Mirror(s);
    AbsentToldIff(s.targets, s.owners, id, ids);
    var told := UpdateInverse(s.owners, id, [], ids);
    Mirror(State(told, s.targets));
    if NoneIn(ids, s.owners) {
      EmptyTarget(State(told, s.targets), id);
    } else {
      var x :| x in ids && x in s.owners;
      ToldButEmpty(s, id, ids, x);
    }
  }

  lemma EmptyTarget(s: State, id: Id)
    requires Mutual(s) && id !in s.targets
    ensures Mutual(State(s.owners, s.targets[id := []]))
  {
  }

  lemma ToldButEmpty(s: State, id: Id, ids: seq<Id>, x: Id)
    requires x in ids && x in s.owners
    ensures !Mutual(Apply(s, InsertTarget(id, ids)))
  {
    InUpdated(s.owners, id, [], ids);
    var s' := Apply(s, InsertTarget(id, ids));
    assert id in s'.owners[x] && x !in s'.targets[id];
  }

  lemma UpdateTargetIff(s: State, id: Id, ids: seq<Id>)
    requires Mutual(s)
    ensures Mutual(Apply(s, UpdateTarget(id, Some(ids)))) <==> Guard(s, UpdateTarget(id, Some(ids)))
  {
    hide UpdateInverse;
    var oldIds := Stored(s.targets, id);
    InUpdated(s.owners, id, oldIds, ids);
    var s' := State(UpdateInverse(s.owners, id, oldIds, ids), s.targets);
    assert forall o :: o in s.owners ==> (o in oldIds <==> id in s.owners[o]);
    if Guard(s, UpdateTarget(id, Some(ids))) {
      forall o, t | o in s'.owners ensures t in s'.owners[o] <==> t in s.owners[o] {
      }
    }
    if Mutual(s') {
      forall o | o in s.owners ensures o in ids <==> o in oldIds {
        assert id in s'.owners[o] <==> id in s'.targets && o in s'.targets[id];
      }
    }
  }

  /** Which documents still store a record after the cleanup that precedes its deletion: none. */
  lemma InCleaned(docs: Documents, record: Id, stored: seq<Id>)
    requires forall d :: d in docs && record in docs[d] ==> d in stored
    ensures Cleaned(docs, record, stored).Keys == docs.Keys
    ensures forall d, x :: d in docs ==> (x in Cleaned(docs, record, stored)[d] <==> x in docs[d] && x != record)
  {
  }

  lemma DeleteOwnerKeeps(owners: Documents, targets: Documents, id: Id)
    requires Mutual(State(owners, targets)) && id in owners
    ensures Mutual(State(owners - {id}, Cleaned(targets, id, owners[id])))
  {
    hide Cleaned;
    var s := State(owners, targets);
    assert forall d :: d in s.targets && id in s.targets[d] ==> d in s.owners[id];
    InCleaned(targets, id, owners[id]);
    var s' := State(owners - {id}, Cleaned(targets, id, owners[id]));
    forall o, t | o in s'.owners && t in s'.owners[o] ensures t in s'.targets && o in s'.targets[t] {
      assert t in s.owners[o];
    }
    forall t, o | t in s'.targets && o in s'.targets[t] ensures o in s'.owners && t in s'.owners[o] {
      assert o in s.targets[t];
    }
  }

  lemma DeleteKeepsMutual(s: State, id: Id)
    requires Mutual(s)
    ensures Mutual(Apply(s, DeleteOwner(id))) && Mutual(Apply(s, DeleteTarget(id)))
  {
    hide Mutual, Cleaned;
    if id in s.owners {
      DeleteOwnerKeeps(s.owners, s.targets, id);
    }
    if id in s.targets {
      Mirror(s);
      DeleteOwnerKeeps(s.targets, s.owners, id);
      Mirror(State(s.targets - {id}, Cleaned(s.owners, id, s.targets[id])));
    }
  }

  // ---- what each operation writes, in terms of who stores whom ----

  /** In every document of one side exactly the membership of `record` may have changed: it is stored now where `told`
      says, and where nothing changed the array is as it was. */
  ghost predicate Told(docs: Documents, docs': Documents, record: Id, told: Id -> bool) {
    && docs'.Keys == docs.Keys
    && (forall d :: d in docs ==> (record in docs'[d] <==> told(d)))
    && (forall d, x :: d in docs && x != record ==> (x in docs'[d] <==> x in docs[d]))
    && (forall d :: d in docs && told(d) == (record in docs[d]) ==> docs'[d] == docs[d])
  }

  /** `docs'` is `docs` without `id`. */
  ghost predicate Removed(docs: Documents, docs': Documents, id: Id) {
    docs'.Keys == docs.Keys - {id} && forall d :: d in docs' ==> docs'[d] == docs[d]
  }

  /** `docs'` is `docs` with `ids` in the document `id`. */
  ghost predicate Written(docs: Documents, docs': Documents, id: Id, ids: seq<Id>) {
    docs'.Keys == docs.Keys + {id} && docs'[id] == ids && forall d :: d in docs && d != id ==> docs'[d] == docs[d]
  }

  lemma UpdateTells(docs: Documents, record: Id, oldIds: seq<Id>, newIds: seq<Id>)
    requires forall d :: d in docs ==> (record in docs[d] <==> d in oldIds)
    ensures Told(docs, UpdateInverse(docs, record, oldIds, newIds), record, d => d in newIds)
  {
  }

  lemma CleaningTells(docs: Documents, record: Id, stored: seq<Id>)
    requires forall d :: d in docs ==> (record in docs[d] <==> d in stored)
    ensures Told(docs, Cleaned(docs, record, stored), record, d => false)
  {
    forall d | d in docs ensures record !in docs[d] ==> Pull(docs[d], record) == docs[d] {
      if record !in docs[d] {
        PullAbsent(docs[d], record);
      }
    }
  }

  /** A new owner stores what it is given, and is stored by exactly the existing targets it names. */
  lemma InsertOwnerWrites(s: State, id: Id, ids: seq<Id>)
    requires Mutual(s) && id !in s.owners
    ensures var t := Apply(s, InsertOwner(id, ids));
            Written(s.owners, t.owners, id, ids) && Told(s.targets, t.targets, id, d => d in ids)
  {
    UpdateTells(s.targets, id, [], ids);
  }

  /** An updated owner likewise, when the update names the field; otherwise nothing changes. */
  lemma UpdateOwnerWrites(s: State, id: Id, field: Option<seq<Id>>)
    requires Mutual(s) && id in s.owners
    ensures var t := Apply(s, UpdateOwner(id, field));
            if field.Some?
            then Written(s.owners, t.owners, id, field.value) && Told(s.targets, t.targets, id, d => d in field.value)
            else t == s
  {
    if field.Some? {
      UpdateTells(s.targets, id, s.owners[id], field.value);
    }
  }

  /** An update of an owner that is not there stores nothing, and still tells the targets. */
  lemma UpdateNoOwnerWrites(s: State, id: Id, ids: seq<Id>)
    requires Mutual(s) && id !in s.owners
    ensures var t := Apply(s, UpdateOwner(id, Some(ids)));
            t.owners == s.owners && Told(s.targets, t.targets, id, d => d in ids)
  {
    UpdateTells(s.targets, id, [], ids);
  }

  /** A deleted owner is gone, no target stores it any more, and everything else is as it was. */
  lemma DeleteOwnerWrites(s: State, id: Id)
    requires Mutual(s)
    ensures var t := Apply(s, DeleteOwner(id));
            if id in s.owners then Removed(s.owners, t.owners, id) && Told(s.targets, t.targets, id, d => false) else t == s
  {
    if id in s.owners {
      CleaningTells(s.targets, id, s.owners[id]);
    }
  }

  /** A new target is given an empty array, whatever it names, and is stored by exactly the existing owners it names. */
  lemma InsertTargetWrites(s: State, id: Id, ids: seq<Id>)
    requires Mutual(s) && id !in s.targets
    ensures var t := Apply(s, InsertTarget(id, ids));
            Written(s.targets, t.targets, id, []) && Told(s.owners, t.owners, id, o => o in ids)
  {
    UpdateTells(s.owners, id, [], ids);
  }

  /** An updated target keeps its array, and is stored by exactly the existing owners it names. */
  lemma UpdateTargetWrites(s: State, id: Id, inverse: Option<seq<Id>>)
    requires Mutual(s)
    ensures var t := Apply(s, UpdateTarget(id, inverse));
            t.targets == s.targets
            && if inverse.Some? then Told(s.owners, t.owners, id, o => o in inverse.value) else t.owners == s.owners
  {
    if inverse.Some? {
      UpdateTells(s.owners, id, Stored(s.targets, id), inverse.value);
    }
  }

  /** A deleted target is gone, and no owner stores it any more. */
  lemma DeleteTargetWrites(s: State, id: Id)
    requires Mutual(s)
    ensures var t := Apply(s, DeleteTarget(id));
            if id in s.targets then Removed(s.targets, t.targets, id) && Told(s.owners, t.owners, id, o => false) else t == s
  {
    if id in s.targets {
      CleaningTells(s.owners, id, s.targets[id]);
    }
  }

  /** From a state in which both sides agree, an operation leaves them agreeing exactly under its guard. */
  lemma OperationIff(s: State, op: Operation)
    requires Mutual(s) && NewId(s, op)
    ensures Mutual(Apply(s, op)) <==> Guard(s, op)
  {
    hide Mutual, Guard, Apply;
    match op {
      case InsertOwner(id, ids) => OwnerWriteIff(s, op);
      case UpdateOwner(id, None) => NoFieldIff(s, op);
      case UpdateOwner(id, Some(ids)) => OwnerWriteIff(s, op);
      case InsertTarget(id, ids) => InsertTargetIff(s, id, ids); InsertTargetGuard(s, op);
      case UpdateTarget(id, None) => NoFieldIff(s, op);
      case UpdateTarget(id, Some(ids)) => UpdateTargetIff(s, id, ids);
      case DeleteOwner(id) => DeleteKeepsMutual(s, id); DeleteUnguarded(s, op);
      case DeleteTarget(id) => DeleteKeepsMutual(s, id); DeleteUnguarded(s, op);
    }
  }

  lemma OwnerWriteIff(s: State, op: Operation)
    requires Mutual(s) && NewId(s, op) && (op.InsertOwner? || (op.UpdateOwner? && op.field.Some?))
    ensures Mutual(Apply(s, op)) <==> Guard(s, op)
  {
    hide Mutual, UpdateInverse;
    var ids := if op.InsertOwner? then op.ids else op.field.value;
    if op.InsertOwner? || op.id in s.owners {
      OwnerToldIff(s, op.id, ids);
    } else {
      AbsentToldIff(s.owners, s.targets, op.id, ids);
    }
  }

  lemma InsertTargetGuard(s: State, op: Operation)
    requires op.InsertTarget?
    ensures Guard(s, op) <==> NoneIn(op.ids, s.owners)
  {
  }

  lemma NoFieldIff(s: State, op: Operation)
    requires Mutual(s) && (op == UpdateOwner(op.id, None) || op == UpdateTarget(op.id, None))
    ensures Mutual(Apply(s, op)) <==> Guard(s, op)
  {
  }

  lemma DeleteUnguarded(s: State, op: Operation)
    requires op.DeleteOwner? || op.DeleteTarget?
    ensures Guard(s, op)
  {
  }

  /** Over a whole history from agreement, the two sides agree after every operation exactly when every
      operation met its guard. */
  lemma HistoryIff(s: State, ops: seq<Operation>)
    requires Mutual(s) && EachTime(Apply, NewId, s, ops)
    ensures Always(Apply, Mutual, s, ops) <==> EachTime(Apply, Guard, s, ops)
  {
    hide Mutual, Guard, Apply, NewId;
    forall t, op | Mutual(t) && NewId(t, op) ensures Mutual(Apply(t, op)) <==> Guard(t, op) {
      OperationIff(t, op);
    }
    KeptIffGuarded(Apply, Mutual, NewId, Guard, s, ops);
  }

  /** So after a history that met its guards a document is in the other's array exactly when the other is in its own,
      and no array names a document that is gone. */
  lemma GuardedHistoryPairs(s: State, ops: seq<Operation>, o: Id, t: Id)
    requires Mutual(s) && EachTime(Apply, NewId, s, ops) && EachTime(Apply, Guard, s, ops)
    ensures var end := After(Apply, s, ops);
            && (o in end.owners && t in end.targets ==> (t in end.owners[o] <==> o in end.targets[t]))
            && (o in end.owners && t in end.owners[o] ==> t in end.targets)
            && (t in end.targets && o in end.targets[t] ==> o in end.owners)
  {
    hide Guard, Apply, NewId;
    HistoryIff(s, ops);
    assert Mutual(After(Apply, s, ops));
  }

  /** Writing the relation from its inverse side breaks it: the owner refers to the target, not the target to it. */
  lemma InverseWriteBreaks() returns (s: State, op: Operation)
    ensures Mutual(s) && NewId(s, op) && op.UpdateTarget? && !Mutual(Apply(s, op))
  {
    s := State(map[1 := []], map[2 := []]);
    op := UpdateTarget(2, Some([1]));
    assert !Guard(s, op) by {
      assert 1 in s.owners && 1 in [1];
    }
    OperationIff(s, op);
  }
}
