/** File uploads on the local store (files/service.go, files/storage.go): a row is
    reserved against the workspace's quota, and finalized once its content has
    been stored and inspected. */
module Files {
  import opened Wrappers
  import opened Sums

  type Id = nat

  datatype Mime = Text | Pdf | Jpeg | Png | Gif | Webp | Other

  /** Bytes, with what sniffing their first 512 says they are. */
  datatype Content = Content(bytes: seq<bv8>, detected: Mime)

  datatype Status = Pending | Ready | Failed

  /** `expected` follows from the extension of the name; the digest has no
      collisions, so it stands for the bytes themselves. */
  datatype File = File(ws: Id, expected: Mime, size: nat, status: Status, digest: Option<seq<bv8>>, detected: Option<Mime>)

  /** Objects are stored under a key made of the workspace and the file id, so under the file id. */
  datatype Db = Db(files: map<Id, File>, objects: map<Id, Content>)

  datatype Limits = Limits(perObject: nat, perWorkspace: int)

  datatype Fault = InvalidInput | NotFound | LimitReached | ObjectLimit | NotReady | Forbidden | StorageFailure

  // ---------- statements ----------

  function SizesOf(files: map<Id, File>, ws: Id): map<Id, nat> {
    map i | i in files && files[i].ws == ws :: files[i].size
  }

  /** SUM(size) over the workspace: every row counts, whatever its status. */
  ghost function Used(files: map<Id, File>, ws: Id): nat {
    Total(SizesOf(files, ws))
  }

  ghost function UsedByOthers(files: map<Id, File>, ws: Id, id: Id): nat {
    Total(SizesOf(files, ws) - {id})
  }

  predicate IsPending(files: map<Id, File>, ws: Id, id: Id) {
    id in files && files[id].ws == ws && files[id].status == Pending
  }

  function MarkFailed(db: Db, id: Id): Db {
    if id in db.files && db.files[id].status == Pending
    then db.(files := db.files[id := db.files[id].(status := Failed)]) else db
  }

  /** What inspect makes of an upload that is `content`. */
  function Inspect(content: Content, most: nat): Option<Fault> {
    if |content.bytes| < 1 then Some(InvalidInput) else if |content.bytes| > most then Some(ObjectLimit) else None
  }

  predicate ValidContent(file: File, content: Content) {
    file.expected != Other && content.detected != Other && file.expected == content.detected
  }

  // ---------- transactions ----------

  ghost function ReserveFault(files: map<Id, File>, ws: Id, id: Id, expected: Mime, declaredOk: bool, size: int, authorized: bool, most: Limits): Option<Fault> {
    if size < 1 || size > most.perObject || expected == Other || !declaredOk then Some(InvalidInput)
    else if !authorized then Some(Forbidden)
    else if Used(files, ws) > most.perWorkspace - size then Some(LimitReached)
    else if id in files then Some(StorageFailure)
    else None
  }

  function Reserved(db: Db, ws: Id, id: Id, expected: Mime, size: nat): Db {
    db.(files := db.files[id := File(ws, expected, size, Pending, None, None)])
  }

  ghost function FinalizeFault(files: map<Id, File>, ws: Id, id: Id, content: Content, authorized: bool, most: Limits): Option<Fault> {
    if !authorized then Some(Forbidden)
    else if UsedByOthers(files, ws, id) > most.perWorkspace - |content.bytes| then Some(LimitReached)
    else if !IsPending(files, ws, id) then Some(NotReady)
    else None
  }

  function Finalized(db: Db, id: Id, content: Content): Db
    requires id in db.files
  {
    db.(files := db.files[id := db.files[id].(
        status := Ready, size := |content.bytes|, digest := Some(content.bytes), detected := Some(content.detected))])
  }

  /** How handing content to the store ends: the temporary file cannot be opened, the store
      refuses it, all is well, or the temporary file cannot be closed afterwards. */
  datatype Storing = NotOpened | NotStored | Stored | NotClosed

  function Written(db: Db, id: Id, content: Content, storing: Storing): Db {
    if storing.Stored? || storing.NotClosed? then db.(objects := db.objects[id := content]) else db
  }

  /** The content is what the row was reserved for: its size and type, within the limit. */
  predicate Meets(content: Content, file: File, most: Limits) {
    1 <= |content.bytes| == file.size <= most.perObject && content.detected == file.expected && file.expected != Other
  }

  datatype Result = Result(db: Db, fault: Option<Fault>)

  /** Finalize, or say why not. */
  ghost function FinalizeResult(db: Db, ws: Id, id: Id, content: Content, authorized: bool, most: Limits): Result {
    var fault := FinalizeFault(db.files, ws, id, content, authorized, most);
    Result(if fault.Some? then db else Finalized(db, id, content), fault)
  }

  /** Refused content fails the file, trouble with storing leaves it pending, and
      otherwise the content is stored and the row finalized if the quota allows. */
  ghost function PutResult(db: Db, ws: Id, id: Id, content: Content, authorized: bool, storing: Storing, most: Limits): Result {
    if !authorized then Result(db, Some(Forbidden))
    else if !IsPending(db.files, ws, id) then Result(db, Some(NotFound))
    else if Inspect(content, most.perObject).Some? then Result(MarkFailed(db, id), Inspect(content, most.perObject))
    else if |content.bytes| != db.files[id].size || !ValidContent(db.files[id], content) then Result(MarkFailed(db, id), Some(InvalidInput))
    else if !storing.Stored? then Result(Written(db, id, content, storing), Some(StorageFailure))
    else FinalizeResult(Written(db, id, content, Stored), ws, id, content, authorized, most)
  }

  ghost function CompleteResult(db: Db, ws: Id, id: Id, authorized: bool, most: Limits): Result {
    if !authorized then Result(db, Some(Forbidden))
    else if !IsPending(db.files, ws, id) || id !in db.objects then Result(db, Some(NotFound))
    else
      var content := db.objects[id];
      if |content.bytes| > most.perObject then Result(MarkFailed(db, id), Some(ObjectLimit))
      else if |content.bytes| < 1 || |content.bytes| != db.files[id].size || !ValidContent(db.files[id], content)
      then Result(MarkFailed(db, id), Some(InvalidInput))
      else FinalizeResult(db, ws, id, content, authorized, most)
  }

  /** The checks on the content come before the reservation of its size. */
  ghost function UploadFault(files: map<Id, File>, ws: Id, id: Id, expected: Mime, content: Content, authorized: bool, most: Limits): Option<Fault> {
    if Inspect(content, most.perObject).Some? then Inspect(content, most.perObject)
    else if expected == Other || expected != content.detected then Some(InvalidInput)
    else ReserveFault(files, ws, id, expected, true, |content.bytes|, authorized, most)
  }

  /** The content is inspected, its size reserved, the content stored, and the row
      finalized; a store that refuses it marks the new row failed. */
  ghost function UploadResult(db: Db, ws: Id, id: Id, expected: Mime, content: Content, authorized: bool, storing: Storing, most: Limits): Result {
    var fault := UploadFault(db.files, ws, id, expected, content, authorized, most);
    if fault.Some? then Result(db, fault)
    else
      var booked := Reserved(db, ws, id, expected, |content.bytes|);
      if storing.NotStored? then Result(MarkFailed(booked, id), Some(StorageFailure))
      else if !storing.Stored? then Result(Written(booked, id, content, storing), Some(StorageFailure))
      else FinalizeResult(Written(booked, id, content, Stored), ws, id, content, authorized, most)
  }

  /** A new row leaves the others as much room as there was. */
  lemma RoomForOne(files: map<Id, File>, ws: Id, id: Id, expected: Mime, size: nat)
    ensures id !in files ==> UsedByOthers(files[id := File(ws, expected, size, Pending, None, None)], ws, id) == Used(files, ws)
  {
    if id !in files {
      assert SizesOf(files[id := File(ws, expected, size, Pending, None, None)], ws) - {id} == SizesOf(files, ws);
    }
  }

  /** The SUM of a query: rows are added up in whatever order they come. */
  method SumSizes(sizes: map<Id, nat>) returns (sum: nat)
    ensures sum == Total(sizes)
  {
    sum := 0;
    var rest := sizes;
    while rest != map[]
      invariant sum + Total(rest) == Total(sizes)
      decreases |rest|
    {
      var i :| i in rest;
      TotalWithout(rest, i);
      KeysLess(rest, i);
      sum := sum + rest[i];
      rest := rest - {i};
    }
  }

  class Service {
    var db: Db
    const most: Limits

    constructor (most: Limits)
      ensures db == Db(map[], map[]) && this.most == most
    {
      this.most := most;
      db := Db(map[], map[]);
    }

    method Initiate(ws: Id, id: Id, expected: Mime, declaredOk: bool, size: int, authorized: bool) returns (fault: Option<Fault>)
      modifies this
      ensures fault == ReserveFault(old(db).files, ws, id, expected, declaredOk, size, authorized, most)
      ensures db == if fault.Some? then old(db) else Reserved(old(db), ws, id, expected, size)
      ensures fault.None? <==>
        && 1 <= size <= most.perObject && expected != Other && declaredOk && authorized
        && id !in old(db).files && Used(old(db).files, ws) + size <= most.perWorkspace
      ensures fault.None? ==> size >= 0 && db == old(db).(files := old(db).files[id := File(ws, expected, size, Pending, None, None)])
    {
      if size < 1 || size > most.perObject || expected == Other || !declaredOk {
        return Some(InvalidInput);
      }
      if !authorized {
        return Some(Forbidden);
      }
      var used := SumSizes(SizesOf(db.files, ws));
      if used > most.perWorkspace - size {
        return Some(LimitReached);
      }
      if id in db.files {
        return Some(StorageFailure);
      }
      db := db.(files := db.files[id := File(ws, expected, size, Pending, None, None)]);
      fault := None;
    }

    /** completeDB: the quota without this file, then the update of a pending row. */
    method CompleteDb(ws: Id, id: Id, content: Content, authorized: bool) returns (fault: Option<Fault>)
      modifies this
      ensures fault == FinalizeFault(old(db).files, ws, id, content, authorized, most)
      ensures db == if fault.Some? then old(db) else Finalized(old(db), id, content)
      ensures fault.None? <==>
        && authorized && id in old(db).files && old(db).files[id].ws == ws && old(db).files[id].status == Pending
        && UsedByOthers(old(db).files, ws, id) + |content.bytes| <= most.perWorkspace
      ensures fault.None? ==> id in db.files && db == old(db).(files := old(db).files[id := old(db).files[id].(
        status := Ready, size := |content.bytes|, digest := Some(content.bytes), detected := Some(content.detected))])
    {
      if !authorized {
        return Some(Forbidden);
      }
      var used := SumSizes(SizesOf(db.files, ws) - {id});
      if used > most.perWorkspace - |content.bytes| {
        return Some(LimitReached);
      }
      if id !in db.files || db.files[id].ws != ws || db.files[id].status != Pending {
        return Some(NotReady);
      }
      var row := db.files[id].(detected := Some(content.detected), size := |content.bytes|, digest := Some(content.bytes));
      db := db.(files := db.files[id := row.(status := Ready)]);
      fault := None;
    }

    /** An upload that nobody interrupts. */
    method PutContent(ws: Id, id: Id, content: Content, authorized: bool, storing: Storing) returns (fault: Option<Fault>)
      modifies this
      ensures Result(db, fault) == PutResult(old(db), ws, id, content, authorized, storing, most)
      ensures fault.None? <==>
        && authorized && id in old(db).files && old(db).files[id].ws == ws && old(db).files[id].status == Pending
        && Meets(content, old(db).files[id], most) && storing == Stored
        && UsedByOthers(old(db).files, ws, id) + |content.bytes| <= most.perWorkspace
      ensures fault.None? ==> id in db.files && db.files[id].status == Ready && id in db.objects && db.objects[id] == content
      ensures authorized && id in old(db).files && old(db).files[id].ws == ws && old(db).files[id].status == Pending && fault.Some? ==>
        id in db.files && db.files[id].status == (if Meets(content, old(db).files[id], most) then Pending else Failed)
    {
      if !authorized {
        return Some(Forbidden);
      }
      if !IsPending(db.files, ws, id) {
        return Some(NotFound);
      }
      var file := db.files[id];
      fault := Inspect(content, most.perObject);
      if fault.Some? || |content.bytes| != file.size || !ValidContent(file, content) {
        db := MarkFailed(db, id);
        return if fault.Some? then fault else Some(InvalidInput);
      }
      if storing.NotOpened? || storing.NotStored? {
        return Some(StorageFailure);
      }
      db := db.(objects := db.objects[id := content]);
      if storing.NotClosed? {
        return Some(StorageFailure);
      }
      fault := CompleteDb(ws, id, content, authorized);
    }

    /** An upload in one call: a row of its own, the content, and the finalization. */
    method Upload(ws: Id, id: Id, expected: Mime, content: Content, authorized: bool, storing: Storing) returns (fault: Option<Fault>)
      modifies this
      ensures Result(db, fault) == UploadResult(old(db), ws, id, expected, content, authorized, storing, most)
      ensures fault.None? <==>
        && 1 <= |content.bytes| <= most.perObject && expected == content.detected && expected != Other && authorized
        && id !in old(db).files && Used(old(db).files, ws) + |content.bytes| <= most.perWorkspace && storing == Stored
      ensures fault.None? ==> id in db.files && db.files[id].status == Ready && id in db.objects && db.objects[id] == content
      ensures id !in old(db).files && id in db.files && fault.Some? ==> db.files[id].status == (if storing.NotStored? then Failed else Pending)
    {
      RoomForOne(db.files, ws, id, expected, |content.bytes|);

      fault := Inspect(content, most.perObject);
      if fault.Some? {
        return;
      }
      if expected == Other || expected != content.detected {
        return Some(InvalidInput);
      }
      fault := Initiate(ws, id, expected, true, |content.bytes|, authorized);
      if fault.Some? {
        return;
      }
      if storing.NotOpened? {
        return Some(StorageFailure);
      }
      if storing.NotStored? {
        db := MarkFailed(db, id);
        return Some(StorageFailure);
      }
      db := db.(objects := db.objects[id := content]);
      if storing.NotClosed? {
        return Some(StorageFailure);
      }
      fault := CompleteDb(ws, id, content, authorized);
    }

    /** Finalizing what is already in the store. */
    method Complete(ws: Id, id: Id, authorized: bool) returns (fault: Option<Fault>)
      modifies this
      ensures Result(db, fault) == CompleteResult(old(db), ws, id, authorized, most)
      ensures fault.None? <==>
        && authorized && id in old(db).files && old(db).files[id].ws == ws && old(db).files[id].status == Pending
        && id in old(db).objects && Meets(old(db).objects[id], old(db).files[id], most)
        && UsedByOthers(old(db).files, ws, id) + |old(db).objects[id].bytes| <= most.perWorkspace
    {
      if !authorized {
        return Some(Forbidden);
      }
      if !IsPending(db.files, ws, id) || id !in db.objects {
        return Some(NotFound);
      }
      var file, content := db.files[id], db.objects[id];
      if |content.bytes| > most.perObject {
        db := MarkFailed(db, id);
        return Some(ObjectLimit);
      }
      if |content.bytes| < 1 || |content.bytes| != file.size || !ValidContent(file, content) {
        db := MarkFailed(db, id);
        return Some(InvalidInput);
      }
      fault := CompleteDb(ws, id, content, authorized);
    }
  }
}
