/**
 * What the change tracker hands to the table-storage data store: state entries
 * whose entity may or may not be a table entity, and the table operations the
 * store derives from them.
 */
module TableEntities {
  import opened Wrappers

  /** The change tracker's classification of an entry. */
  datatype EntityState = Unknown | Unchanged | Added | Deleted | Modified

  /**
   * A table entity as the store sees it: its partition key, which the store
   * only reads, and its ETag, which the store overwrites on delete. The rest of
   * the entity's payload is opaque here.
   */
  class TableEntity {
    const PartitionKey: string
    var ETag: Option<string>

    constructor (partitionKey: string, eTag: Option<string>)
      ensures PartitionKey == partitionKey && ETag == eTag
    {
      PartitionKey := partitionKey;
      ETag := eTag;
    }
  }

  /** `entry.Entity` seen through `as ITableEntity`: null, some other object, or a table entity. */
  datatype EntityRef = NullEntity | OtherObject | TableEntityRef(entity: TableEntity)

  /** The entity type of an entry; `storageName` names its table. */
  datatype EntityType = EntityType(name: string, storageName: string)

  datatype StateEntry = StateEntry(entityType: EntityType, entity: EntityRef, state: EntityState)

  /** A table operation keeps a reference to the entity it writes. */
  datatype TableOperation = Insert(entity: TableEntity) | Replace(entity: TableEntity) | Delete(entity: TableEntity)

  /** The wildcard ETag: delete whatever version the table holds. */
  const Wildcard: string := "*"

  function EntityTypeOf(entry: StateEntry): EntityType {
    entry.entityType
  }

  /**
   * The partition key used to group an entry. For an entry that is not a table
   * entity the source dereferences null here; callers fault before using it.
   */
  function PartitionKeyOf(entry: StateEntry): string {
    if entry.entity.TableEntityRef? then entry.entity.entity.PartitionKey else ""
  }

  predicate IsTableEntry(entry: StateEntry) {
    entry.entity.TableEntityRef?
  }

  /** The operation `GetOperation` yields for an entry, ignoring its effect on the ETag. */
  function OperationFor(entry: StateEntry): (r: Option<TableOperation>)
    ensures r.Some? <==> IsTableEntry(entry) && entry.state in {Added, Deleted, Modified}
    ensures r.Some? ==> r.value.entity == entry.entity.entity
  {
    match entry.entity
    case TableEntityRef(e) =>
      (match entry.state
       case Added => Some(Insert(e))
       case Deleted => Some(Delete(e))
       case Modified => Some(Replace(e))
       case Unchanged => None
       case Unknown => None)
    case _ => None
  }

  /** The non-null operations of a sequence of entries, in order (`Select(GetOperation).Where(op != null)`). */
  function NonNullOps(entries: seq<StateEntry>): (ops: seq<TableOperation>)
    ensures |ops| <= |entries|
    ensures forall op :: op in ops ==> exists e :: e in entries && OperationFor(e) == Some(op)
    ensures forall i :: 0 <= i < |entries| && OperationFor(entries[i]).Some? ==> OperationFor(entries[i]).value in ops
  {
    if entries == [] then []
    else
      (match OperationFor(entries[0]) case Some(op) => [op] case None => []) + NonNullOps(entries[1..])
  }

  /**
   * Dropping the null operations keeps order: the operations of a sequence of
   * entries are those of its first part followed by those of the rest.
   */
  lemma {:induction false} NonNullOpsAppend(a: seq<StateEntry>, b: seq<StateEntry>)
    ensures NonNullOps(a + b) == NonNullOps(a) + NonNullOps(b)
  {
    if a == [] {
      assert a + b == b;
    } else {
      assert (a + b)[1..] == a[1..] + b;
      NonNullOpsAppend(a[1..], b);
    }
  }

  /** The table entities an entry may lead the store to modify. */
  ghost function EntityObjects(entry: StateEntry): set<TableEntity> {
    if entry.entity.TableEntityRef? then {entry.entity.entity} else {}
  }

  ghost function AllEntities(entries: seq<StateEntry>): set<TableEntity> {
    set e, x | e in entries && x in EntityObjects(e) :: x
  }

  /** The table entities of the entries in state Deleted. */
  ghost function DeletedEntities(entries: seq<StateEntry>): set<TableEntity> {
    set e, x | e in entries && e.state == Deleted && x in EntityObjects(e) :: x
  }

  /**
   * The only change the store makes to an entity: a Deleted entry's missing
   * ETag becomes the wildcard; every other ETag is left as it was.
   */
  twostate predicate OnlyWildcardsAdded(ents: set<TableEntity>, deleted: set<TableEntity>)
    reads ents
  {
    forall x :: x in ents ==>
      x.ETag == old(x.ETag) || (old(x.ETag) == None && x.ETag == Some(Wildcard) && x in deleted)
  }

  /**
   * `GetOperation`: maps an entry to Insert, Replace or Delete, or to null for
   * a no-op or for an entity that is not a table entity. On Delete it first
   * replaces a null ETag by the wildcard, in place; Replace keeps the ETag.
   */
  method GetOperation(entry: StateEntry) returns (op: Option<TableOperation>)
    modifies EntityObjects(entry)
    ensures op == OperationFor(entry)
    ensures !IsTableEntry(entry) ==> op == None
    ensures IsTableEntry(entry) ==>
      match entry.state
      case Added => op == Some(Insert(entry.entity.entity))
      case Modified => op == Some(Replace(entry.entity.entity))
      case Deleted => op == Some(Delete(entry.entity.entity))
      case Unchanged => op == None
      case Unknown => op == None
    ensures IsTableEntry(entry) ==>
      entry.entity.entity.ETag ==
        if entry.state == Deleted && old(entry.entity.entity.ETag) == None then Some(Wildcard)
        else old(entry.entity.entity.ETag)
  {
    if !entry.entity.TableEntityRef? {
      return None;
    }
    var entity := entry.entity.entity;
    match entry.state {
      case Added =>
        op := Some(Insert(entity));
      case Deleted =>
        if entity.ETag == None {
          entity.ETag := Some(Wildcard);
        }
        op := Some(Delete(entity));
      case Modified =>
        op := Some(Replace(entity));
      case Unchanged =>
        op := None;
      case Unknown =>
        op := None;
    }
  }
}
