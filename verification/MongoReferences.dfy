/** A many-to-one relation in MongoDB: each child stores the id of its parent, each parent an array of the ids of
    its children, kept by updates that follow every insert, update and delete. */
module MongoReferences {
  import opened Histories
  import opened Prelude
  import MR = MongoRelations

  type Id = MR.Id

  /** The field of each child, and the inverse array of each parent. */
  datatype State = State(children: map<Id, Option<Id>>, parents: map<Id, seq<Id>>)

  datatype Operation =
    | InsertChild(id: Id, parent: Option<Id>)
    | UpdateChild(id: Id, field: Option<Option<Id>>)
    | DeleteChild(id: Id)
    | InsertParent(id: Id, ids: seq<Id>)
    | UpdateParent(id: Id, inverse: Option<seq<Id>>)
    | DeleteParent(id: Id)

  // ---- the effect of the updates on the other side ----

  function ParentOf(children: map<Id, Option<Id>>, id: Id): Option<Id> {
    if id in children then children[id] else None
  }

  /** The old parent loses the child and the new one gains it, when they differ and exist. */
  function Moved(parents: map<Id, seq<Id>>, child: Id, before: Option<Id>, after: Option<Id>): map<Id, seq<Id>> {
    if before == after then parents
    else
      map p | p in parents ::
        if before == Some(p) then MR.Pull(parents[p], child)
        else if after == Some(p) then MR.AddToSet(parents[p], child)
        else parents[p]
  }

  /** The one-to-many side: dropped children lose the reference, added ones are pointed at the parent. */
  function Pointed(children: map<Id, Option<Id>>, parent: Id, oldIds: seq<Id>, newIds: seq<Id>): map<Id, Option<Id>> {
    map c | c in children ::
      if c in oldIds && c !in newIds then None
      else if c in newIds && c !in oldIds then Some(parent)
      else children[c]
  }

  function Orphaned(children: map<Id, Option<Id>>, parent: Id, stored: seq<Id>): map<Id, Option<Id>> {
    map c | c in children ::
      if (if stored != [] then c in stored else children[c] == Some(parent)) then None else children[c]
  }

  function Apply(s: State, op: Operation): State {
    match op
    case InsertChild(id, parent) => State(s.children[id := parent], Moved(s.parents, id, None, parent))
    case UpdateChild(id, None) => s
    case UpdateChild(id, Some(parent)) =>
      State(if id in s.children then s.children[id := parent] else s.children,
            Moved(s.parents, id, ParentOf(s.children, id), parent))
    case DeleteChild(id) => State(s.children - {id}, s.parents)
    case InsertParent(id, ids) => State(Pointed(s.children, id, [], ids), s.parents[id := []])
    case UpdateParent(id, None) => s
    case UpdateParent(id, Some(ids)) => State(Pointed(s.children, id, MR.Stored(s.parents, id), ids), s.parents)
    case DeleteParent(id) =>
      if id in s.parents then State(Orphaned(s.children, id, s.parents[id]), s.parents - {id}) else s
  }

  // ---- both sides agree ----

  ghost predicate Mutual(s: State) {
    && (forall c :: c in s.children && s.children[c].Some? ==>
          s.children[c].value in s.parents && c in s.parents[s.children[c].value])
    && (forall p, c :: p in s.parents && c in s.parents[p] ==> c in s.children && s.children[c] == Some(p))
  }

  predicate Known(parents: map<Id, seq<Id>>, parent: Option<Id>) {
    parent.Some? ==> parent.value in parents
  }

  predicate Unknown(parents: map<Id, seq<Id>>, parent: Option<Id>) {
    parent.Some? ==> parent.value !in parents
  }

  /** What an operation must be given. A deleted child must have no parent: its id is never taken out of the
      parent's array. */
  predicate Guard(s: State, op: Operation) {
    match op
    case InsertChild(_, parent) => Known(s.parents, parent)
    case UpdateChild(id, Some(parent)) => if id in s.children then Known(s.parents, parent) else Unknown(s.parents, parent)
    case DeleteChild(id) => ParentOf(s.children, id).None?
    case InsertParent(_, ids) => forall c :: c in s.children ==> c !in ids
    case UpdateParent(id, Some(ids)) => forall c :: c in s.children ==> (c in ids <==> c in MR.Stored(s.parents, id))
    case _ => true
  }

  predicate NewId(s: State, op: Operation) {
    (op.InsertChild? ==> op.id !in s.children) && (op.InsertParent? ==> op.id !in s.parents)
  }

  lemma ChildMovedIff(s: State, id: Id, parent: Option<Id>)
    requires Mutual(s)
    ensures Mutual(State(s.children[id := parent], Moved(s.parents, id, ParentOf(s.children, id), parent)))
            <==> Known(s.parents, parent)
  {
    var s' := State(s.children[id := parent], Moved(s.parents, id, ParentOf(s.children, id), parent));
    assert s'.children[id] == parent;
    if Mutual(s') && parent.Some? {
      assert parent.value in s'.parents;
    }
  }

  lemma AbsentChildIff(s: State, id: Id, parent: Option<Id>)
    requires Mutual(s) && id !in s.children
    ensures Mutual(State(s.children, Moved(s.parents, id, None, parent))) <==> Unknown(s.parents, parent)
  {
    var s' := State(s.children, Moved(s.parents, id, None, parent));
    if parent.Some? && parent.value in s.parents {
      assert id in s'.parents[parent.value];
    }
  }

  lemma DeleteChildIff(s: State, id: Id)
    requires Mutual(s)
    ensures Mutual(Apply(s, DeleteChild(id))) <==> ParentOf(s.children, id).None?
  {
    var s' := Apply(s, DeleteChild(id));
    if ParentOf(s.children, id).Some? {
      assert id in s'.parents[s.children[id].value];
    }
  }

  lemma ParentWriteIff(s: State, id: Id, oldIds: seq<Id>, ids: seq<Id>)
    requires Mutual(s) && oldIds == MR.Stored(s.parents, id)
    ensures Mutual(State(Pointed(s.children, id, oldIds, ids), s.parents))
            <==> forall c :: c in s.children ==> (c in ids <==> c in oldIds)
  {
    var s' := State(Pointed(s.children, id, oldIds, ids), s.parents);
    if forall c :: c in s.children ==> (c in ids <==> c in oldIds) {
      assert s'.children == s.children;
    }
    if Mutual(s') {
      forall c | c in s.children ensures c in ids <==> c in oldIds {
        assert s'.children[c] == Some(id) ==> id in s'.parents && c in s'.parents[id];
        assert c in oldIds ==> c in s'.parents[id] && s'.children[c] == Some(id);
      }
    }
  }

  lemma InsertParentIff(s: State, id: Id, ids: seq<Id>)
    requires Mutual(s) && id !in s.parents
    ensures Mutual(Apply(s, InsertParent(id, ids))) <==> forall c :: c in s.children ==> c !in ids
  {
    var s' := Apply(s, InsertParent(id, ids));
    if forall c :: c in s.children ==> c !in ids {
      assert s'.children == s.children;
    }
    assert forall c :: c in s.children && c in ids ==> s'.children[c] == Some(id);
    assert s'.parents[id] == [];
  }

  lemma DeleteParentKeeps(s: State, id: Id)
    requires Mutual(s)
    ensures Mutual(Apply(s, DeleteParent(id)))
  {
    if id in s.parents {
      var s' := Apply(s, DeleteParent(id));
      forall c | c in s.children
        ensures s'.children[c] == if s.children[c] == Some(id) then None else s.children[c]
      {
      }
    }
  }

  // ---- what each operation writes, in terms of who refers to whom ----

  /** In the arrays of the parents exactly the membership of `child` may have changed, and it is in that of `parent`. */
  ghost predicate MovedTo(parents: map<Id, seq<Id>>, parents': map<Id, seq<Id>>, child: Id, parent: Option<Id>) {
    && parents'.Keys == parents.Keys
    && (forall p :: p in parents ==> (child in parents'[p] <==> parent == Some(p)))
    && (forall p, c :: p in parents && c != child ==> (c in parents'[p] <==> c in parents[p]))
  }

  /** A new or updated child stores its parent, whose array, if it exists, is then the only one that holds the child. */
  lemma ChildWrites(s: State, id: Id, parent: Option<Id>)
    requires Mutual(s)
    ensures id !in s.children ==>
              var t := Apply(s, InsertChild(id, parent));
              t.children == s.children[id := parent] && MovedTo(s.parents, t.parents, id, parent)
    ensures var t := Apply(s, UpdateChild(id, Some(parent)));
            && t.children == (if id in s.children then s.children[id := parent] else s.children)
            && MovedTo(s.parents, t.parents, id, parent)
    ensures Apply(s, UpdateChild(id, None)) == s
  {
  }

  /** A deleted child is gone, and every parent's array is as it was. */
  lemma DeleteChildWrites(s: State, id: Id)
    ensures var t := Apply(s, DeleteChild(id));
            && t.parents == s.parents && t.children.Keys == s.children.Keys - {id}
            && forall c :: c in t.children ==> t.children[c] == s.children[c]
  {
  }

  /** Of the children exactly those named refer to `parent` now, those it had before to nothing unless they are
      named, and all others to what they referred to. */
  ghost predicate RefersNow(children: map<Id, Option<Id>>, children': map<Id, Option<Id>>, parent: Id, named: seq<Id>) {
    && children'.Keys == children.Keys
    && forall c :: c in children ==>
         children'[c] == if c in named then Some(parent) else if children[c] == Some(parent) then None else children[c]
  }

  /** A new parent is given an empty array and is referred to by exactly the existing children it names; an updated
      one keeps its array, and is referred to by exactly those it names. */
  lemma ParentWrites(s: State, id: Id, ids: seq<Id>)
    requires Mutual(s)
    ensures id !in s.parents ==>
              var t := Apply(s, InsertParent(id, ids));
              && t.parents.Keys == s.parents.Keys + {id} && t.parents[id] == []
              && (forall p :: p in s.parents ==> t.parents[p] == s.parents[p])
              && RefersNow(s.children, t.children, id, ids)
    ensures var t := Apply(s, UpdateParent(id, Some(ids)));
            t.parents == s.parents && RefersNow(s.children, t.children, id, ids)
    ensures Apply(s, UpdateParent(id, None)) == s
  {
  }

  /** A deleted parent is gone, and none of its children refers to it any more. */
  lemma DeleteParentWrites(s: State, id: Id)
    requires Mutual(s)
    ensures var t := Apply(s, DeleteParent(id));
            if id in s.parents
            then
              && t.parents.Keys == s.parents.Keys - {id}
              && (forall p :: p in t.parents ==> t.parents[p] == s.parents[p])
              && RefersNow(s.children, t.children, id, [])
            else t == s
  {
  }

  /** From agreement, an operation leaves both sides agreeing exactly under its guard; in particular deleting a
      child that has a parent leaves its id in the parent's array. */
  lemma OperationIff(s: State, op: Operation)
    requires Mutual(s) && NewId(s, op)
    ensures Mutual(Apply(s, op)) <==> Guard(s, op)
  {
    hide Mutual, Moved, Pointed, Orphaned;
    match op {
      case InsertChild(id, parent) => ChildMovedIff(s, id, parent);
      case UpdateChild(id, None) =>
      case UpdateChild(id, Some(parent)) =>
        if id in s.children {
          ChildMovedIff(s, id, parent);
        } else {
          AbsentChildIff(s, id, parent);
        }
      case DeleteChild(id) => DeleteChildIff(s, id);
      case InsertParent(id, ids) => InsertParentIff(s, id, ids);
      case UpdateParent(id, None) =>
      case UpdateParent(id, Some(ids)) => ParentWriteIff(s, id, MR.Stored(s.parents, id), ids);
      case DeleteParent(id) => DeleteParentKeeps(s, id);
    }
  }

  /** Over a whole history from agreement, the two sides agree after every operation exactly when every
      operation met its guard. */
  lemma HistoryIff(s: State, ops: seq<Operation>)
    requires Mutual(s) && EachTime(Apply, NewId, s, ops)
    ensures Always(Apply, Mutual, s, ops) <==> EachTime(Apply, Guard, s, ops)
  {
    hide Mutual, Guard, Apply, NewId;
    forall t, op | Mutual(t) && NewId(t, op) ensures Mutual(Apply(t, op)) <==> Guard(t, op) {
      OperationIff(t, op);
    }
    KeptIffGuarded(Apply, Mutual, NewId, Guard, s, ops);
  }

  // ---- the service ----

  function SetEach(children: map<Id, Option<Id>>, ids: seq<Id>, v: Option<Id>): map<Id, Option<Id>> {
    map c | c in children :: if c in ids then v else children[c]
  }

  class MongoService {
    var children: map<Id, Option<Id>>
    var parents: map<Id, seq<Id>>

    constructor ()
      ensures View() == State(map[], map[])
    {
      children, parents := map[], map[];
    }

    ghost function View(): State
      reads this
    {
      State(children, parents)
    }

    /** `updateInverseRelationsOnUpdate`, many-to-one. */
    method TellParents(child: Id, oldId: Option<Id>, newId: Option<Id>)
      modifies this`parents
      ensures parents == Moved(old(parents), child, oldId, newId)
    {
      if oldId.Some? && (newId.None? || oldId != newId) && oldId.value in parents {
        parents := parents[oldId.value := MR.Pull(parents[oldId.value], child)];
      }
      if newId.Some? && (oldId.None? || oldId != newId) && newId.value in parents {
        parents := parents[newId.value := MR.AddToSet(parents[newId.value], child)];
      }
    }

    method SetAll(ids: seq<Id>, v: Option<Id>)
      modifies this`children
      ensures children == SetEach(old(children), ids, v)
    {
      for i := 0 to |ids|
        invariant children == SetEach(old(children), ids[..i], v)
      {
        assert ids[..i + 1] == ids[..i] + [ids[i]];
        if ids[i] in children {
          children := children[ids[i] := v];
        }
      }
      assert ids[..|ids|] == ids;
    }

    /** `updateInverseRelationsOnUpdate`, one-to-many. */
    method TellChildren(parent: Id, oldIds: seq<Id>, newIds: seq<Id>)
      modifies this`children
      ensures children == Pointed(old(children), parent, oldIds, newIds)
    {
      SetAll(MR.Without(oldIds, newIds), None);
      SetAll(MR.Without(newIds, oldIds), Some(parent));
    }

    method Insert(op: Operation)
      requires op.InsertChild? || op.InsertParent?
      modifies this
      ensures View() == Apply(old(View()), op)
    {
      if op.InsertChild? {
        children := children[op.id := op.parent];
        TellParents(op.id, None, op.parent);
      } else {
        parents := parents[op.id := []];
        TellChildren(op.id, [], op.ids);
      }
    }

    method Update(op: Operation)
      requires op.UpdateChild? || op.UpdateParent?
      modifies this
      ensures View() == Apply(old(View()), op)
    {
      if op.UpdateChild? && op.field.Some? {
        var oldId := ParentOf(children, op.id);
        if op.id in children {
          children := children[op.id := op.field.value];
        }
        TellParents(op.id, oldId, op.field.value);
      } else if op.UpdateParent? && op.inverse.Some? {
        TellChildren(op.id, MR.Stored(parents, op.id), op.inverse.value);
      }
    }

    /** The cleanup of a many-to-one field does nothing; that of a one-to-many array clears the children. */
    method Delete(op: Operation) returns (deleted: bool)
      requires op.DeleteChild? || op.DeleteParent?
      modifies this
      ensures View() == Apply(old(View()), op)
      ensures deleted <==> if op.DeleteChild? then op.id in old(children) else op.id in old(parents)
    {
      if op.DeleteChild? {
        deleted := op.id in children;
        children := children - {op.id};
      } else {
        deleted := op.id in parents;
        if deleted {
          var ids := parents[op.id];
          if ids == [] {
            ids := FindChildren(op.id);
          }
          SetAll(ids, None);
          parents := parents - {op.id};
        }
      }
    }

    method FindChildren(parent: Id) returns (ids: seq<Id>)
      ensures forall c :: c in ids <==> c in children && children[c] == Some(parent)
    {
      ids := [];
      var left := children.Keys;
      while left != {}
        invariant left <= children.Keys
        invariant forall c :: c in ids <==> c in children && c !in left && children[c] == Some(parent)
        decreases |left|
      {
        var c :| c in left;
        left := left - {c};
        if children[c] == Some(parent) {
          ids := ids + [c];
        }
      }
    }
  }
}
