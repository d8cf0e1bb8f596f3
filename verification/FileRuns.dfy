/** Uploads and completions that run at once in one process.  Each takes its steps
    at moments of its own.  PutContent and Complete hold the lock from their second
    look at the row until they return; Upload reserves its own row, stores the
    content without the lock, and takes it only to finalize.  A restart forgets
    every call and frees the lock. */
module FileRuns {
  import opened Wrappers
  import opened Sums
  import opened Files

  datatype Task = Put(content: Content) | Completing | Uploading(content: Content)

  /** How far a call is: it has seen the row pending, passed the early checks, holds
      the lock, has seen the row again, or has the content of the object in hand; an
      Upload has booked its row, or kept its content in the store, before that. */
  datatype Phase =
    | Seen(copy: File) | Checked | Locked | SeenAgain(copy: File) | InHand(copy: File, content: Content)
    | Booked(copy: File) | Kept(copy: File)

  datatype Call = Call(ws: Id, file: Id, task: Task, phase: Phase)

  /** `private` has the ids an Upload has drawn and not yet returned, and who drew them. */
  datatype World = World(db: Db, calls: map<Id, Call>, holder: Option<Id>, private: map<Id, Id>)

  datatype Step =
    | Reserve(ws: Id, id: Id, expected: Mime, declaredOk: bool, size: int, authorized: bool)
    | StartPut(call: Id, ws: Id, id: Id, content: Content, authorized: bool)
    | EarlyCheck(call: Id)
    | StartComplete(call: Id, ws: Id, id: Id)
    | Lock(call: Id)
    | LookAgain(call: Id, authorized: bool)
    | Store(call: Id, storing: Storing)
    | ReadBack(call: Id)
    | Finalize(call: Id, authorized: bool)
    | StartUpload(call: Id, ws: Id, id: Id, expected: Mime, content: Content, authorized: bool)
    | StoreUpload(call: Id, storing: Storing)
    | Restart

  /** The call returns, and gives the lock back if it holds it. */
  function Return(w: World, call: Id): World {
    w.(calls := w.calls - {call}, holder := if w.holder == Some(call) then None else w.holder)
  }

  function ReturnWith(w: World, db: Db, call: Id): World {
    Return(w.(db := db), call)
  }

  function Proceed(w: World, call: Id, phase: Phase): World
    requires call in w.calls
  {
    w.(calls := w.calls[call := w.calls[call].(phase := phase)])
  }

  predicate HasLock(w: World, call: Id) {
    call in w.calls && w.holder == Some(call)
  }

  ghost function Apply(w: World, s: Step, most: Limits): World {
    match s
    case Reserve(ws, id, expected, declaredOk, size, authorized) =>
      if ReserveFault(w.db.files, ws, id, expected, declaredOk, size, authorized, most).Some? then w
      else w.(db := Reserved(w.db, ws, id, expected, size))
    case StartPut(call, ws, id, content, authorized) =>
      if call in w.calls || !authorized || !IsPending(w.db.files, ws, id) then w
      else w.(calls := w.calls[call := Call(ws, id, Put(content), Seen(w.db.files[id]))])
    case EarlyCheck(call) =>
      if call in w.calls && w.calls[call].phase.Seen? && w.calls[call].task.Put? then EarlyChecked(w, call, most) else w
    case StartComplete(call, ws, id) =>
      if call in w.calls then w else w.(calls := w.calls[call := Call(ws, id, Completing, Checked)])
    case Lock(call) =>
      if call in w.calls && (w.calls[call].phase.Checked? || UploadKept(w.calls[call])) && w.holder == None
      then Proceed(w, call, PhaseLocked(w.calls[call])).(holder := Some(call)) else w
    case LookAgain(call, authorized) =>
      if HasLock(w, call) && w.calls[call].phase.Locked? then
        var k := w.calls[call];
        if authorized && IsPending(w.db.files, k.ws, k.file) then Proceed(w, call, SeenAgain(w.db.files[k.file])) else Return(w, call)
      else w
    case Store(call, storing) =>
      if HasLock(w, call) && w.calls[call].phase.SeenAgain? && w.calls[call].task.Put? then StoredContent(w, call, storing) else w
    case ReadBack(call) =>
      if HasLock(w, call) && w.calls[call].phase.SeenAgain? && w.calls[call].task.Completing? then ReadContent(w, call, most) else w
    case Finalize(call, authorized) =>
      if HasLock(w, call) && w.calls[call].phase.InHand? then
        var k := w.calls[call];
        var content := k.phase.content;
        if FinalizeFault(w.db.files, k.ws, k.file, content, authorized, most).Some? then Return(w, call)
        else ReturnWith(w.(private := w.private - {k.file}), Finalized(w.db, k.file, content), call)
      else w
    case StartUpload(call, ws, id, expected, content, authorized) =>
      if call !in w.calls && UploadFault(w.db.files, ws, id, expected, content, authorized, most).None? then
        var db := Reserved(w.db, ws, id, expected, |content.bytes|);
        World(db, w.calls[call := Call(ws, id, Uploading(content), Booked(db.files[id]))], w.holder, w.private[id := call])
      else w
    case StoreUpload(call, storing) =>
      if call in w.calls && w.calls[call].task.Uploading? && w.calls[call].phase.Booked? then UploadStored(w, call, storing) else w
    case Restart => World(w.db, map[], None, w.private)
  }

  predicate UploadKept(k: Call) {
    k.task.Uploading? && k.phase.Kept?
  }

  /** Under the lock an Upload goes straight to finalizing what it stored. */
  function PhaseLocked(k: Call): Phase {
    if UploadKept(k) then InHand(k.phase.copy, k.task.content) else Locked
  }

  function UploadStored(w: World, call: Id, storing: Storing): World
    requires call in w.calls && w.calls[call].task.Uploading? && w.calls[call].phase.Booked?
  {
    var k := w.calls[call];
    if storing.NotStored? then ReturnWith(w, MarkFailed(w.db, k.file), call)
    else
      var put := Written(w.db, k.file, k.task.content, storing);
      if storing.Stored? then Proceed(w.(db := put), call, Kept(k.phase.copy)) else ReturnWith(w, put, call)
  }

  function EarlyChecked(w: World, call: Id, most: Limits): World
    requires call in w.calls && w.calls[call].phase.Seen? && w.calls[call].task.Put?
  {
    var k := w.calls[call];
    var content, copy := k.task.content, k.phase.copy;
    if Inspect(content, most.perObject).Some? || |content.bytes| != copy.size || !ValidContent(copy, content)
    then ReturnWith(w, MarkFailed(w.db, k.file), call)
    else Proceed(w, call, Checked)
  }

  function StoredContent(w: World, call: Id, storing: Storing): World
    requires call in w.calls && w.calls[call].phase.SeenAgain? && w.calls[call].task.Put?
  {
    var k := w.calls[call];
    var content, copy := k.task.content, k.phase.copy;
    if copy.size != |content.bytes| || !ValidContent(copy, content) then ReturnWith(w, MarkFailed(w.db, k.file), call)
    else
      var put := Written(w.db, k.file, content, storing);
      if storing.Stored? then Proceed(w.(db := put), call, InHand(copy, content)) else ReturnWith(w, put, call)
  }

  function ReadContent(w: World, call: Id, most: Limits): World
    requires call in w.calls && w.calls[call].phase.SeenAgain?
  {
    var k := w.calls[call];
    if k.file !in w.db.objects then Return(w, call)
    else
      var content, copy := w.db.objects[k.file], k.phase.copy;
      if |content.bytes| > most.perObject || |content.bytes| < 1 || |content.bytes| != copy.size || !ValidContent(copy, content)
      then ReturnWith(w, MarkFailed(w.db, k.file), call)
      else Proceed(w, call, InHand(copy, content))
  }

  // ---------- invariant ----------

  /** A ready file's object is there and has the recorded size, digest and type. */
  predicate Sound(db: Db, id: Id) {
    id in db.files && db.files[id].status == Ready ==>
      && id in db.objects
      && db.files[id].size == |db.objects[id].bytes|
      && db.files[id].digest == Some(db.objects[id].bytes)
      && db.files[id].detected == Some(db.objects[id].detected)
  }

  /** Past the lock a call holds it, works on a file that is not ready, and what
      it has in hand is what the store holds. */
  predicate HolderOk(w: World, call: Id, k: Call) {
    && (k.phase.Locked? || k.phase.SeenAgain? || k.phase.InHand? ==> w.holder == Some(call))
    && (k.phase.SeenAgain? || k.phase.InHand? ==> k.file in w.db.files && w.db.files[k.file].status != Ready)
    && (k.phase.InHand? ==> k.file in w.db.objects && w.db.objects[k.file] == k.phase.content)
  }

  /** An Upload alone works on the row it has drawn, and nobody else on such a row. */
  predicate UploadOk(w: World, call: Id, k: Call) {
    if k.task.Uploading? then
      && k.file in w.private && w.private[k.file] == call && (k.phase.Booked? || k.phase.Kept? || k.phase.InHand?)
      && k.file in w.db.files && w.db.files[k.file].status != Ready
      && (k.phase.Kept? ==> k.file in w.db.objects && w.db.objects[k.file] == k.task.content)
    else k.file !in w.private && !k.phase.Booked? && !k.phase.Kept?
  }

  predicate CallOk(w: World, call: Id, k: Call) {
    HolderOk(w, call, k) && UploadOk(w, call, k)
  }

  ghost predicate AllSound(db: Db) {
    forall id :: Sound(db, id)
  }

  ghost predicate CallsOk(w: World) {
    forall c :: c in w.calls ==> CallOk(w, c, w.calls[c])
  }

  ghost predicate WithinQuota(files: map<Id, File>, most: Limits) {
    forall ws :: Used(files, ws) <= most.perWorkspace
  }

  ghost predicate Inv(w: World) {
    AllSound(w.db) && CallsOk(w) && forall id :: id in w.private ==> id in w.db.files
  }

  /** Ids are random: no call names one that an Upload has drawn and not yet
      returned, and no Upload draws one that a call under way has named. */
  predicate Discreet(w: World, s: Step) {
    match s
    case StartPut(_, _, id, _, _) => id !in w.private
    case StartComplete(_, _, id) => id !in w.private
    case StartUpload(_, _, id, _, _, _) => forall c | c in w.calls :: w.calls[c].file != id
    case _ => true
  }

  // ---------- the quota ----------

  lemma ReserveFits(files: map<Id, File>, id: Id, file: File, most: Limits)
    requires WithinQuota(files, most) && id !in files && Used(files, file.ws) <= most.perWorkspace - file.size
    ensures WithinQuota(files[id := file], most)
  {
    var files' := files[id := file];
    forall ws ensures Used(files', ws) <= most.perWorkspace {
      assert Used(files, ws) <= most.perWorkspace;
      if ws == file.ws {
        assert SizesOf(files', ws) == SizesOf(files, ws)[id := file.size];
        TotalUpdate(SizesOf(files, ws), id, file.size);
      } else {
        assert SizesOf(files', ws) == SizesOf(files, ws);
      }
    }
  }

  lemma RewriteFits(files: map<Id, File>, id: Id, file: File, most: Limits)
    requires WithinQuota(files, most) && id in files && files[id].ws == file.ws
    requires UsedByOthers(files, file.ws, id) <= most.perWorkspace - file.size
    ensures WithinQuota(files[id := file], most)
  {
    var files' := files[id := file];
    forall ws ensures Used(files', ws) <= most.perWorkspace {
      assert Used(files, ws) <= most.perWorkspace;
      if ws == file.ws {
        assert SizesOf(files', ws) - {id} == SizesOf(files, ws) - {id};
        TotalWithout(SizesOf(files', ws), id);
      } else {
        assert SizesOf(files', ws) == SizesOf(files, ws);
      }
    }
  }

  lemma FailingFits(db: Db, id: Id, most: Limits)
    requires WithinQuota(db.files, most)
    ensures WithinQuota(MarkFailed(db, id).files, most)
  {
    forall ws ensures SizesOf(MarkFailed(db, id).files, ws) == SizesOf(db.files, ws) {
    }
    forall ws ensures Used(MarkFailed(db, id).files, ws) <= most.perWorkspace {
      assert Used(db.files, ws) <= most.perWorkspace;
    }
  }

  lemma FinalizedFits(db: Db, ws: Id, id: Id, content: Content, authorized: bool, most: Limits)
    requires WithinQuota(db.files, most) && FinalizeFault(db.files, ws, id, content, authorized, most).None?
    ensures id in db.files && WithinQuota(Finalized(db, id, content).files, most)
  {
    RewriteFits(db.files, id, Finalized(db, id, content).files[id], most);
  }

  lemma ReservedFits(db: Db, ws: Id, id: Id, expected: Mime, declaredOk: bool, size: int, authorized: bool, most: Limits)
    requires WithinQuota(db.files, most) && ReserveFault(db.files, ws, id, expected, declaredOk, size, authorized, most).None?
    ensures size >= 1 && WithinQuota(Reserved(db, ws, id, expected, size).files, most)
  {
    ReserveFits(db.files, id, Reserved(db, ws, id, expected, size).files[id], most);
  }

  /** No step of any call takes a workspace over its quota: Initiate and Upload reserve
      what fits, and finalizing counts the row at the size of its content. */
  lemma StepFits(w: World, s: Step, most: Limits)
    requires WithinQuota(w.db.files, most)
    ensures WithinQuota(Apply(w, s, most).db.files, most)
  {
    match s
    case Reserve(ws, id, expected, declaredOk, size, authorized) =>
      if ReserveFault(w.db.files, ws, id, expected, declaredOk, size, authorized, most).None? {
        ReservedFits(w.db, ws, id, expected, declaredOk, size, authorized, most);
      }
    case EarlyCheck(call) => if call in w.calls { FailingFits(w.db, w.calls[call].file, most); }
    case Store(call, _) => if call in w.calls { FailingFits(w.db, w.calls[call].file, most); }
    case ReadBack(call) => if call in w.calls { FailingFits(w.db, w.calls[call].file, most); }
    case StoreUpload(call, _) => if call in w.calls { FailingFits(w.db, w.calls[call].file, most); }
    case Finalize(call, authorized) =>
      if HasLock(w, call) && w.calls[call].phase.InHand? {
        var k := w.calls[call];
        if FinalizeFault(w.db.files, k.ws, k.file, k.phase.content, authorized, most).None? {
          FinalizedFits(w.db, k.ws, k.file, k.phase.content, authorized, most);
        }
      }
    case StartUpload(_, ws, id, expected, content, authorized) =>
      if UploadFault(w.db.files, ws, id, expected, content, authorized, most).None? {
        ReservedFits(w.db, ws, id, expected, true, |content.bytes|, authorized, most);
      }
    case _ =>
  }

  // ---------- one lemma per kind of step ----------

  lemma ReturnKeeps(w: World, call: Id)
    requires CallsOk(w)
    ensures CallsOk(Return(w, call))
  {
    forall c | c in Return(w, call).calls ensures CallOk(Return(w, call), c, w.calls[c]) {
      assert CallOk(w, c, w.calls[c]);
    }
  }

  lemma FailKeeps(w: World, call: Id, id: Id)
    requires Inv(w)
    ensures Inv(ReturnWith(w, MarkFailed(w.db, id), call))
  {
    var mid := w.(db := MarkFailed(w.db, id));
    forall c | c in mid.calls ensures CallOk(mid, c, mid.calls[c]) {
      assert CallOk(w, c, w.calls[c]);
    }
    forall i ensures Sound(mid.db, i) {
      assert Sound(w.db, i);
    }
    ReturnKeeps(mid, call);
  }

  lemma ProceedKeeps(w: World, call: Id, k: Call)
    requires CallsOk(w) && CallOk(w, call, k)
    ensures CallsOk(w.(calls := w.calls[call := k]))
  {
    var w' := w.(calls := w.calls[call := k]);
    forall c | c in w'.calls ensures CallOk(w', c, w'.calls[c]) {
      assert c != call ==> CallOk(w, c, w.calls[c]);
    }
  }

  lemma LockKeeps(w: World, call: Id)
    requires CallsOk(w) && call in w.calls && w.holder == None && (w.calls[call].phase.Checked? || UploadKept(w.calls[call]))
    ensures CallsOk(Proceed(w, call, PhaseLocked(w.calls[call])).(holder := Some(call)))
  {
    var w' := Proceed(w, call, PhaseLocked(w.calls[call])).(holder := Some(call));
    forall c | c in w'.calls ensures CallOk(w', c, w'.calls[c]) {
      assert CallOk(w, c, w.calls[c]);
    }
  }

  /** An object is written by the holder of the lock, on a file that is not ready and
      that no Upload has drawn. */
  lemma StoreKeeps(w: World, call: Id, content: Content)
    requires Inv(w) && HasLock(w, call) && w.calls[call].phase.SeenAgain? && !w.calls[call].task.Uploading?
    ensures var k := w.calls[call]; var mid := w.(db := w.db.(objects := w.db.objects[k.file := content]));
      Inv(mid) && Inv(Proceed(mid, call, InHand(k.phase.copy, content)))
  {
    var k := w.calls[call];
    var mid := w.(db := w.db.(objects := w.db.objects[k.file := content]));
    assert CallOk(w, call, k);
    forall c | c in mid.calls ensures CallOk(mid, c, mid.calls[c]) {
      assert CallOk(w, c, w.calls[c]);
    }
    forall i ensures Sound(mid.db, i) {
      assert Sound(w.db, i);
    }
    ProceedKeeps(mid, call, k.(phase := InHand(k.phase.copy, content)));
  }

  /** ... or by an Upload, without the lock, on the file that it alone has drawn. */
  lemma UploadKeeps(w: World, call: Id, storing: Storing)
    requires Inv(w) && call in w.calls && w.calls[call].task.Uploading? && w.calls[call].phase.Booked?
    ensures Inv(UploadStored(w, call, storing))
  {
    var k := w.calls[call];
    assert CallOk(w, call, k);
    if storing.NotStored? {
      FailKeeps(w, call, k.file);
    } else if storing.NotOpened? {
      ReturnKeeps(w, call);
    } else {
      var mid := w.(db := w.db.(objects := w.db.objects[k.file := k.task.content]));
      forall c | c in mid.calls ensures CallOk(mid, c, mid.calls[c]) {
        assert CallOk(w, c, w.calls[c]);
      }
      forall i ensures Sound(mid.db, i) {
        assert Sound(w.db, i);
      }
      ProceedKeeps(mid, call, k.(phase := Kept(k.phase.copy)));
      ReturnKeeps(mid, call);
    }
  }

  lemma FinalizeKeeps(w: World, call: Id, authorized: bool, most: Limits)
    requires Inv(w) && HasLock(w, call) && w.calls[call].phase.InHand?
    requires var k := w.calls[call]; FinalizeFault(w.db.files, k.ws, k.file, k.phase.content, authorized, most).None?
    ensures w.calls[call].file in w.db.files
    ensures var k := w.calls[call];
      Inv(ReturnWith(w.(private := w.private - {k.file}), Finalized(w.db, k.file, k.phase.content), call))
  {
    var k := w.calls[call];
    var db' := Finalized(w.db, k.file, k.phase.content);
    assert CallOk(w, call, k);
    forall i ensures Sound(db', i) {
      assert Sound(w.db, i);
    }
    var w' := ReturnWith(w.(private := w.private - {k.file}), db', call);
    forall c | c in w'.calls ensures CallOk(w', c, w'.calls[c]) {
      assert CallOk(w, c, w.calls[c]);
    }
  }

  lemma EarlyKeeps(w: World, call: Id, most: Limits)
    requires Inv(w) && call in w.calls && w.calls[call].phase.Seen? && w.calls[call].task.Put?
    ensures Inv(EarlyChecked(w, call, most))
  {
    FailKeeps(w, call, w.calls[call].file);
    assert CallOk(w, call, w.calls[call]);
    ProceedKeeps(w, call, w.calls[call].(phase := Checked));
  }

  lemma StoringKeeps(w: World, call: Id, storing: Storing)
    requires Inv(w) && HasLock(w, call) && w.calls[call].phase.SeenAgain? && w.calls[call].task.Put?
    ensures Inv(StoredContent(w, call, storing))
  {
    var k := w.calls[call];
    FailKeeps(w, call, k.file);
    ReturnKeeps(w, call);
    StoreKeeps(w, call, k.task.content);
    ReturnKeeps(w.(db := w.db.(objects := w.db.objects[k.file := k.task.content])), call);
  }

  lemma ReadingKeeps(w: World, call: Id, most: Limits)
    requires Inv(w) && HasLock(w, call) && w.calls[call].phase.SeenAgain?
    ensures Inv(ReadContent(w, call, most))
  {
    var k := w.calls[call];
    assert CallOk(w, call, k);
    FailKeeps(w, call, k.file);
    ReturnKeeps(w, call);
    if k.file in w.db.objects {
      ProceedKeeps(w, call, k.(phase := InHand(k.phase.copy, w.db.objects[k.file])));
    }
  }

  lemma ReserveKeeps(w: World, ws: Id, id: Id, expected: Mime, size: nat)
    requires Inv(w) && id !in w.db.files
    ensures Inv(w.(db := Reserved(w.db, ws, id, expected, size)))
  {
    var w' := w.(db := Reserved(w.db, ws, id, expected, size));
    forall i ensures Sound(w'.db, i) {
      assert Sound(w.db, i);
    }
    forall c | c in w'.calls ensures CallOk(w', c, w'.calls[c]) {
      assert CallOk(w, c, w.calls[c]);
    }
  }

  lemma StartUploadKeeps(w: World, s: Step, most: Limits)
    requires Inv(w) && s.StartUpload? && Discreet(w, s)
    ensures Inv(Apply(w, s, most))
  {
    if s.call !in w.calls && UploadFault(w.db.files, s.ws, s.id, s.expected, s.content, s.authorized, most).None? {
      ReserveKeeps(w, s.ws, s.id, s.expected, |s.content.bytes|);
      var mid := w.(db := Reserved(w.db, s.ws, s.id, s.expected, |s.content.bytes|));
      PrivateKeeps(mid, s.call, s.id);
      ProceedKeeps(mid.(private := mid.private[s.id := s.call]), s.call,
        Call(s.ws, s.id, Uploading(s.content), Booked(mid.db.files[s.id])));
    }
  }

  lemma PrivateKeeps(w: World, call: Id, id: Id)
    requires CallsOk(w) && forall c :: c in w.calls ==> w.calls[c].file != id
    ensures CallsOk(w.(private := w.private[id := call]))
  {
    var w' := w.(private := w.private[id := call]);
    forall c | c in w'.calls ensures CallOk(w', c, w'.calls[c]) {
      assert CallOk(w, c, w.calls[c]);
    }
  }

  lemma LookAgainKeeps(w: World, call: Id, authorized: bool, most: Limits)
    requires Inv(w) && HasLock(w, call)
    ensures Inv(Apply(w, LookAgain(call, authorized), most))
  {
    var k := w.calls[call];
    ReturnKeeps(w, call);
    assert CallOk(w, call, k);
    if k.phase.Locked? && IsPending(w.db.files, k.ws, k.file) {
      ProceedKeeps(w, call, k.(phase := SeenAgain(w.db.files[k.file])));
    }
  }

  lemma FinalizeStepKeeps(w: World, call: Id, authorized: bool, most: Limits)
    requires Inv(w) && HasLock(w, call) && w.calls[call].phase.InHand?
    ensures Inv(Apply(w, Finalize(call, authorized), most))
  {
    var k := w.calls[call];
    ReturnKeeps(w, call);
    if FinalizeFault(w.db.files, k.ws, k.file, k.phase.content, authorized, most).None? {
      FinalizeKeeps(w, call, authorized, most);
    }
  }

  lemma StepKeeps(w: World, s: Step, most: Limits)
    requires Inv(w) && Discreet(w, s)
    ensures Inv(Apply(w, s, most))
  {
    match s
    case Reserve(ws, id, expected, declaredOk, size, authorized) =>
      if ReserveFault(w.db.files, ws, id, expected, declaredOk, size, authorized, most).None? { ReserveKeeps(w, ws, id, expected, size); }
    case StartPut(call, ws, id, content, authorized) =>
      if call !in w.calls && IsPending(w.db.files, ws, id) { ProceedKeeps(w, call, Call(ws, id, Put(content), Seen(w.db.files[id]))); }
    case EarlyCheck(call) =>
      if call in w.calls && w.calls[call].phase.Seen? && w.calls[call].task.Put? { EarlyKeeps(w, call, most); }
    case StartComplete(call, ws, id) => ProceedKeeps(w, call, Call(ws, id, Completing, Checked));
    case Lock(call) =>
      if call in w.calls && w.holder == None && (w.calls[call].phase.Checked? || UploadKept(w.calls[call])) { LockKeeps(w, call); }
    case LookAgain(call, authorized) => if HasLock(w, call) { LookAgainKeeps(w, call, authorized, most); }
    case Store(call, storing) =>
      if HasLock(w, call) && w.calls[call].phase.SeenAgain? && w.calls[call].task.Put? { StoringKeeps(w, call, storing); }
    case ReadBack(call) => if HasLock(w, call) && w.calls[call].phase.SeenAgain? { ReadingKeeps(w, call, most); }
    case Finalize(call, authorized) =>
      if HasLock(w, call) && w.calls[call].phase.InHand? { FinalizeStepKeeps(w, call, authorized, most); }
    case StartUpload(_, _, _, _, _, _) => StartUploadKeeps(w, s, most);
    case StoreUpload(call, storing) =>
      if call in w.calls && w.calls[call].task.Uploading? && w.calls[call].phase.Booked? { UploadKeeps(w, call, storing); }
    case Restart =>
  }

  // ---------- every run ----------

  const EMPTY := World(Db(map[], map[]), map[], None, map[])

  ghost function Run(w: World, steps: seq<Step>, most: Limits): World
    decreases |steps|
  {
    if steps == [] then w else Run(Apply(w, steps[0], most), steps[1..], most)
  }

  ghost predicate AllDiscreet(w: World, steps: seq<Step>, most: Limits)
    decreases |steps|
  {
    steps == [] || (Discreet(w, steps[0]) && AllDiscreet(Apply(w, steps[0], most), steps[1..], most))
  }

  lemma {:induction false} RunKeeps(w: World, steps: seq<Step>, most: Limits)
    requires Inv(w) && AllDiscreet(w, steps, most)
    ensures Inv(Run(w, steps, most))
    decreases |steps|
  {
    if steps != [] {
      StepKeeps(w, steps[0], most);
      RunKeeps(Apply(w, steps[0], most), steps[1..], most);
    }
  }

  lemma {:induction false} RunFits(w: World, steps: seq<Step>, most: Limits)
    requires WithinQuota(w.db.files, most)
    ensures WithinQuota(Run(w, steps, most).db.files, most)
    decreases |steps|
  {
    if steps != [] {
      StepFits(w, steps[0], most);
      RunFits(Apply(w, steps[0], most), steps[1..], most);
    }
  }

  /** However Initiate, Upload, PutContent and Complete interleave, on whatever ids, the
      sizes of a workspace's files, whatever their status, never add up to more than its quota. */
  lemma QuotaIsKept(steps: seq<Step>, most: Limits, ws: Id, sizes: map<Id, nat>)
    requires most.perWorkspace >= 0
    requires var files := Run(EMPTY, steps, most).db.files;
      && (forall i :: i in sizes <==> i in files && files[i].ws == ws)
      && (forall i :: i in sizes ==> sizes[i] == files[i].size)
    ensures Total(sizes) <= most.perWorkspace
  {
    forall w ensures Used(EMPTY.db.files, w) == 0 {
      assert SizesOf(EMPTY.db.files, w) == map[];
    }
    RunFits(EMPTY, steps, most);
    var files := Run(EMPTY, steps, most).db.files;
    assert Used(files, ws) <= most.perWorkspace;
    assert SizesOf(files, ws) == sizes;
  }

  /** However uploads and completions interleave, and wherever the process is
      restarted, a ready file's stored bytes have the recorded size and digest, whether
      it came from Initiate or from Upload. */
  lemma ReadyFilesAreIntact(steps: seq<Step>, most: Limits, id: Id)
    requires AllDiscreet(EMPTY, steps, most)
    requires id in Run(EMPTY, steps, most).db.files && Run(EMPTY, steps, most).db.files[id].status == Ready
    ensures var db := Run(EMPTY, steps, most).db;
      id in db.objects && db.files[id].size == |db.objects[id].bytes| && db.files[id].digest == Some(db.objects[id].bytes)
  {
    RunKeeps(EMPTY, steps, most);
    assert Sound(Run(EMPTY, steps, most).db, id);
  }

  lemma ReadyStep(w: World, s: Step, most: Limits, id: Id)
    requires Inv(w) && id in w.db.files && w.db.files[id].status == Ready
    ensures var db := Apply(w, s, most).db;
      id in db.files && db.files[id] == w.db.files[id] && id in db.objects && id in w.db.objects && db.objects[id] == w.db.objects[id]
  {
    assert Sound(w.db, id);
    if (s.Store? || s.StoreUpload?) && s.call in w.calls {
      assert CallOk(w, s.call, w.calls[s.call]);
    }
  }

  /** A ready file is never changed again, neither its row nor its object. */
  lemma {:induction false} ReadyIsFinal(w: World, steps: seq<Step>, most: Limits, id: Id)
    requires Inv(w) && AllDiscreet(w, steps, most) && id in w.db.files && w.db.files[id].status == Ready
    ensures var db := Run(w, steps, most).db;
      id in db.files && db.files[id] == w.db.files[id] && id in db.objects && id in w.db.objects && db.objects[id] == w.db.objects[id]
    decreases |steps|
  {
    if steps == [] {
      assert Sound(w.db, id);
    } else {
      ReadyStep(w, steps[0], most, id);
      StepKeeps(w, steps[0], most);
      ReadyIsFinal(Apply(w, steps[0], most), steps[1..], most, id);
    }
  }

  /** The step makes the file ready. */
  ghost predicate MakesReady(w: World, s: Step, most: Limits, id: Id) {
    var after := Apply(w, s, most).db.files;
    && id in after && after[id].status == Ready
    && (id in w.db.files ==> w.db.files[id].status != Ready)
  }

  ghost function TimesMadeReady(w: World, steps: seq<Step>, most: Limits, id: Id): nat
    decreases |steps|
  {
    if steps == [] then 0
    else (if MakesReady(w, steps[0], most, id) then 1 else 0) + TimesMadeReady(Apply(w, steps[0], most), steps[1..], most, id)
  }

  /** A file becomes ready at most once. */
  lemma {:induction false} ReadyAtMostOnce(w: World, steps: seq<Step>, most: Limits, id: Id)
    requires Inv(w) && AllDiscreet(w, steps, most)
    ensures TimesMadeReady(w, steps, most, id) <= if id in w.db.files && w.db.files[id].status == Ready then 0 else 1
    decreases |steps|
  {
    if steps != [] {
      StepKeeps(w, steps[0], most);
      if id in w.db.files && w.db.files[id].status == Ready {
        ReadyStep(w, steps[0], most, id);
      }
      ReadyAtMostOnce(Apply(w, steps[0], most), steps[1..], most, id);
    }
  }

  // ---------- what a ready file is ----------

  /** Content of the type a name promises, neither empty nor too large. */
  predicate AsPromised(content: Content, expected: Mime, most: Limits) {
    content.detected == expected && expected != Other && 1 <= |content.bytes| <= most.perObject
  }

  predicate FilePromised(file: File, most: Limits) {
    file.status == Ready ==> file.detected == Some(file.expected) && file.expected != Other && 1 <= file.size <= most.perObject
  }

  /** What each call knows about its file and its content when it has got this far. */
  predicate CallPromised(files: map<Id, File>, k: Call, most: Limits) {
    && (k.task.Put? && !k.phase.Seen? ==> 1 <= |k.task.content.bytes| <= most.perObject)
    && (k.phase.SeenAgain? || k.phase.Booked? || k.phase.Kept? || k.phase.InHand? ==> k.file in files)
    && (k.phase.SeenAgain? ==> files[k.file].expected == k.phase.copy.expected)
    && (k.task.Uploading? && (k.phase.Booked? || k.phase.Kept?) ==> AsPromised(k.task.content, files[k.file].expected, most))
    && (k.phase.InHand? ==> AsPromised(k.phase.content, files[k.file].expected, most))
  }

  ghost predicate Promised(w: World, most: Limits) {
    && (forall i :: i in w.db.files ==> FilePromised(w.db.files[i], most))
    && (forall c :: c in w.calls ==> CallPromised(w.db.files, w.calls[c], most))
  }

  /** Rows may come and change, but not what they promise, and none is ready that was not. */
  predicate SamePromises(files: map<Id, File>, files': map<Id, File>) {
    forall i | i in files :: i in files' && files'[i].expected == files[i].expected
  }

  lemma OthersPromised(w: World, w': World, call: Id, most: Limits)
    requires Promised(w, most) && SamePromises(w.db.files, w'.db.files)
    requires forall i :: i in w'.db.files ==> FilePromised(w'.db.files[i], most)
    requires w'.calls - {call} == w.calls - {call} && (call in w'.calls ==> CallPromised(w'.db.files, w'.calls[call], most))
    ensures Promised(w', most)
  {
    forall c | c in w'.calls ensures CallPromised(w'.db.files, w'.calls[c], most) {
      if c != call {
        assert c in w'.calls - {call};
        assert c in w.calls && w'.calls[c] == w.calls[c];
        assert CallPromised(w.db.files, w.calls[c], most);
      }
    }
  }

  lemma FinalizePromised(w: World, call: Id, authorized: bool, most: Limits)
    requires Promised(w, most) && HasLock(w, call) && w.calls[call].phase.InHand?
    ensures Promised(Apply(w, Finalize(call, authorized), most), most)
  {
    assert CallPromised(w.db.files, w.calls[call], most);
    OthersPromised(w, Apply(w, Finalize(call, authorized), most), call, most);
  }

  lemma UploadPromised(w: World, s: Step, most: Limits)
    requires Promised(w, most) && (s.StartUpload? || s.StoreUpload?)
    ensures Promised(Apply(w, s, most), most)
  {
    if s.call in w.calls {
      assert CallPromised(w.db.files, w.calls[s.call], most);
    }
    OthersPromised(w, Apply(w, s, most), s.call, most);
  }

  lemma PutPromised(w: World, s: Step, most: Limits)
    requires Promised(w, most) && (s.StartPut? || s.EarlyCheck? || s.Store?)
    ensures Promised(Apply(w, s, most), most)
  {
    if s.call in w.calls {
      assert CallPromised(w.db.files, w.calls[s.call], most);
    }
    OthersPromised(w, Apply(w, s, most), s.call, most);
  }

  lemma LookingPromised(w: World, s: Step, most: Limits)
    requires Promised(w, most) && (s.StartComplete? || s.Lock? || s.LookAgain? || s.ReadBack?)
    ensures Promised(Apply(w, s, most), most)
  {
    if s.call in w.calls {
      assert CallPromised(w.db.files, w.calls[s.call], most);
    }
    OthersPromised(w, Apply(w, s, most), s.call, most);
  }

  lemma ReservePromised(w: World, s: Step, most: Limits)
    requires Promised(w, most) && s.Reserve?
    ensures Promised(Apply(w, s, most), most)
  {
    var w' := Apply(w, s, most);
    forall c | c in w'.calls ensures CallPromised(w'.db.files, w'.calls[c], most) {
      assert CallPromised(w.db.files, w.calls[c], most);
    }
  }

  lemma StepPromised(w: World, s: Step, most: Limits)
    requires Promised(w, most)
    ensures Promised(Apply(w, s, most), most)
  {
    match s
    case Reserve(_, _, _, _, _, _) => ReservePromised(w, s, most);
    case StartUpload(_, _, _, _, _, _) => UploadPromised(w, s, most);
    case StoreUpload(_, _) => UploadPromised(w, s, most);
    case Finalize(call, authorized) =>
      if HasLock(w, call) && w.calls[call].phase.InHand? { FinalizePromised(w, call, authorized, most); }
    case StartPut(_, _, _, _, _) => PutPromised(w, s, most);
    case EarlyCheck(_) => PutPromised(w, s, most);
    case Store(_, _) => PutPromised(w, s, most);
    case Restart =>
    case _ => LookingPromised(w, s, most);
  }

  lemma {:induction false} RunPromised(w: World, steps: seq<Step>, most: Limits)
    requires Promised(w, most)
    ensures Promised(Run(w, steps, most), most)
    decreases |steps|
  {
    if steps != [] {
      StepPromised(w, steps[0], most);
      RunPromised(Apply(w, steps[0], most), steps[1..], most);
    }
  }

  /** However calls interleave, on whatever ids: a ready file has the type that its name
      promises, one of those allowed, and a size from one byte to the largest object. */
  lemma ReadyFilesAreAsPromised(steps: seq<Step>, most: Limits, id: Id)
    requires id in Run(EMPTY, steps, most).db.files && Run(EMPTY, steps, most).db.files[id].status == Ready
    ensures var file := Run(EMPTY, steps, most).db.files[id];
      file.detected == Some(file.expected) && file.expected != Other && 1 <= file.size <= most.perObject
  {
    RunPromised(EMPTY, steps, most);
  }

  // ---------- calls that nobody interrupts ----------

  lemma StartedPut(w: World, call: Id, ws: Id, id: Id, content: Content, most: Limits)
    requires call !in w.calls && w.holder == None && IsPending(w.db.files, ws, id)
    requires Inspect(content, most.perObject).None? && |content.bytes| == w.db.files[id].size && ValidContent(w.db.files[id], content)
    ensures var k := Call(ws, id, Put(content), SeenAgain(w.db.files[id]));
      Apply(Apply(Apply(Apply(w, StartPut(call, ws, id, content, true), most), EarlyCheck(call), most), Lock(call), most), LookAgain(call, true), most)
        == World(w.db, w.calls[call := k], Some(call), w.private)
  {
    var file := w.db.files[id];
    var w1 := Apply(w, StartPut(call, ws, id, content, true), most);
    var w2 := Apply(w1, EarlyCheck(call), most);
    var w3 := Apply(w2, Lock(call), most);
    assert w1 == w.(calls := w.calls[call := Call(ws, id, Put(content), Seen(file))]);
    assert w2 == w.(calls := w.calls[call := Call(ws, id, Put(content), Checked)]);
    assert w3 == World(w.db, w.calls[call := Call(ws, id, Put(content), Locked)], Some(call), w.private);
  }

  /** PutContent in one go is what its steps do when no other call comes between them. */
  lemma PutAsSteps(w: World, call: Id, ws: Id, id: Id, content: Content, storing: Storing, most: Limits)
    requires call !in w.calls && w.holder == None && IsPending(w.db.files, ws, id)
    ensures var seen := Apply(Apply(w, StartPut(call, ws, id, content, true), most), EarlyCheck(call), most);
      var held := Apply(Apply(seen, Lock(call), most), LookAgain(call, true), most);
      var done := Apply(Apply(held, Store(call, storing), most), Finalize(call, true), most);
      done.db == PutResult(w.db, ws, id, content, true, storing, most).db && done.calls == w.calls && done.holder == None
  {
    if Inspect(content, most.perObject).None? && |content.bytes| == w.db.files[id].size && ValidContent(w.db.files[id], content) {
      StartedPut(w, call, ws, id, content, most);
      HeldPut(World(w.db, w.calls[call := Call(ws, id, Put(content), SeenAgain(w.db.files[id]))], Some(call), w.private), call, storing, most);
      assert w.calls[call := Call(ws, id, Put(content), SeenAgain(w.db.files[id]))] - {call} == w.calls;
    } else {
      var w1 := Apply(w, StartPut(call, ws, id, content, true), most);
      assert w1.calls - {call} == w.calls;
      assert Apply(w1, EarlyCheck(call), most) == World(MarkFailed(w.db, id), w.calls, None, w.private);
    }
  }

  lemma HeldPut(w: World, call: Id, storing: Storing, most: Limits)
    requires HasLock(w, call) && w.calls[call].phase.SeenAgain? && w.calls[call].task.Put?
    requires var k := w.calls[call];
      && IsPending(w.db.files, k.ws, k.file) && k.phase.copy == w.db.files[k.file]
      && |k.task.content.bytes| == k.phase.copy.size && ValidContent(k.phase.copy, k.task.content)
    ensures var k := w.calls[call]; var put := w.db.(objects := w.db.objects[k.file := k.task.content]);
      var done := Apply(Apply(w, Store(call, storing), most), Finalize(call, true), most);
      && done.db == (if storing.Stored? then FinalizeResult(put, k.ws, k.file, k.task.content, true, most).db else Written(w.db, k.file, k.task.content, storing))
      && done.calls == w.calls - {call} && done.holder == None
  {
    var k := w.calls[call];
    var w1 := Apply(w, Store(call, storing), most);
    if storing.Stored? {
      assert w1.calls == w.calls[call := k.(phase := InHand(k.phase.copy, k.task.content))];
      assert w1.calls - {call} == w.calls - {call};
    }
  }

  lemma UploadStarted(w: World, call: Id, ws: Id, id: Id, expected: Mime, content: Content, most: Limits)
    requires call !in w.calls && UploadFault(w.db.files, ws, id, expected, content, true, most).None?
    ensures var booked := Reserved(w.db, ws, id, expected, |content.bytes|);
      Apply(w, StartUpload(call, ws, id, expected, content, true), most)
        == World(booked, w.calls[call := Call(ws, id, Uploading(content), Booked(booked.files[id]))], w.holder, w.private[id := call])
  {
  }

  lemma BookedUpload(w: World, call: Id, storing: Storing, most: Limits)
    requires call in w.calls && w.calls[call].task.Uploading? && w.calls[call].phase.Booked? && w.holder == None
    ensures var k := w.calls[call]; var put := w.db.(objects := w.db.objects[k.file := k.task.content]);
      var done := Apply(Apply(Apply(w, StoreUpload(call, storing), most), Lock(call), most), Finalize(call, true), most);
      && done.db == (if storing.NotStored? then MarkFailed(w.db, k.file)
                     else if storing.Stored? then FinalizeResult(put, k.ws, k.file, k.task.content, true, most).db
                     else Written(w.db, k.file, k.task.content, storing))
      && done.calls == w.calls - {call} && done.holder == None
  {
    var k := w.calls[call];
    if storing.Stored? {
      var w2 := Apply(w, StoreUpload(call, storing), most);
      assert w2.calls == w.calls[call := k.(phase := Kept(k.phase.copy))];
      var w3 := Apply(w2, Lock(call), most);
      assert w3.calls == w.calls[call := k.(phase := InHand(k.phase.copy, k.task.content))];
      assert w3.calls - {call} == w.calls - {call};
    }
  }

  /** Upload in one go is what its steps do when the lock is free. */
  lemma UploadAsSteps(w: World, call: Id, ws: Id, id: Id, expected: Mime, content: Content, storing: Storing, most: Limits)
    requires call !in w.calls && w.holder == None && UploadFault(w.db.files, ws, id, expected, content, true, most).None?
    ensures var kept := Apply(Apply(w, StartUpload(call, ws, id, expected, content, true), most), StoreUpload(call, storing), most);
      var done := Apply(Apply(kept, Lock(call), most), Finalize(call, true), most);
      done.db == UploadResult(w.db, ws, id, expected, content, true, storing, most).db && done.calls == w.calls && done.holder == None
  {
    var booked := Reserved(w.db, ws, id, expected, |content.bytes|);
    var k := Call(ws, id, Uploading(content), Booked(booked.files[id]));
    UploadStarted(w, call, ws, id, expected, content, most);
    BookedUpload(World(booked, w.calls[call := k], None, w.private[id := call]), call, storing, most);
    assert w.calls[call := k] - {call} == w.calls;
  }
}
