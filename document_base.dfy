/** DocumentBase: the fields every stored document embeds (its ID and three timestamps) and
    the newness flag, kept inverted so that the zero value is a new document. */
module DocumentBases {
  import opened Store

  /** A wall-clock instant; 0 is Go's zero time.Time. */
  type Time = int

  const ZeroTime: Time := 0

  /** The fields of a DocumentBase as one value. */
  datatype BaseState = BaseState(id: ObjectId, createdAt: Time, deletedAt: Time, updatedAt: Time, existing: bool)

  class DocumentBase {
    var id: ObjectId
    var createdAt: Time
    var deletedAt: Time
    var updatedAt: Time
    var existing: bool

    /** The zero value: no ID, zero timestamps, not known to exist. */
    constructor ()
      ensures id == ZeroId && createdAt == ZeroTime && deletedAt == ZeroTime && updatedAt == ZeroTime
      ensures IsNew()
    {
      id := ZeroId;
      createdAt := ZeroTime;
      deletedAt := ZeroTime;
      updatedAt := ZeroTime;
      existing := false;
    }

    function State(): BaseState
      reads this
    {
      BaseState(id, createdAt, deletedAt, updatedAt, existing)
    }

    /** New unless it has been marked as existing. */
    predicate IsNew()
      reads this
    {
      !existing
    }

    method SetIsNew(isNew: bool)
      modifies this`existing
      ensures IsNew() == isNew
    {
      existing := !isNew;
    }

    function GetID(): ObjectId
      reads this
    {
      id
    }

    method SetID(newId: ObjectId)
      modifies this`id
      ensures GetID() == newId
    {
      id := newId;
    }

    function GetCreatedAt(): Time
      reads this
    {
      createdAt
    }

    method SetCreatedAt(t: Time)
      modifies this`createdAt
      ensures GetCreatedAt() == t
    {
      createdAt := t;
    }

    function GetUpdatedAt(): Time
      reads this
    {
      updatedAt
    }

    method SetUpdatedAt(t: Time)
      modifies this`updatedAt
      ensures GetUpdatedAt() == t
    {
      updatedAt := t;
    }

    function GetDeletedAt(): Time
      reads this
    {
      deletedAt
    }

    method SetDeletedAt(t: Time)
      modifies this`deletedAt
      ensures GetDeletedAt() == t
    {
      deletedAt := t;
    }
  }
}
